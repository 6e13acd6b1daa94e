/** The entry point: prepare the records from the form rows, derive the engine's
    name from the selected algorithm, and run that engine. The name lookup on the
    global object is modelled as a closed table of the four engines. */
module Dispatch {
  import opened Records
  import opened Sorting
  import opened Timeline
  import opened ArrivalOrder
  import RoundRobinEngine
  import SrtEngine
  import SjnEngine
  import PriorityEngine

  datatype Policy = RoundRobin | Srt | Sjn | Priority

  /** The global name of each engine. */
  function EngineName(p: Policy): string {
    match p
    case RoundRobin => "runRoundRobin"
    case Srt => "runSrt"
    case Sjn => "runSjn"
    case Priority => "runPriority"
  }

  /** The value the algorithm menu gives for each engine. */
  function MenuValue(p: Policy): string {
    match p
    case RoundRobin => "roundRobin"
    case Srt => "srt"
    case Sjn => "sjn"
    case Priority => "priority"
  }

  /** Upper case for the ASCII letters; every other character is kept. */
  function Upper(c: char): (u: char)
    ensures 'a' <= c <= 'z' ==> 'A' <= u <= 'Z' && u as int == c as int - 32
    ensures !('a' <= c <= 'z') ==> u == c
  {
    if 'a' <= c <= 'z' then (c as int - 32) as char else c
  }

  /** The first character upper-cased, the rest unchanged. */
  function Capitalize(s: string): (r: string)
    ensures |r| == |s| && (s != [] ==> r[0] == Upper(s[0]) && r[1..] == s[1..])
  {
    if s == [] then [] else [Upper(s[0])] + s[1..]
  }

  /** The engine that a global name refers to, if any. */
  function Lookup(name: string): (r: Option<Policy>)
    ensures r.Some? ==> EngineName(r.value) == name
    ensures r.None? ==> forall p: Policy :: EngineName(p) != name
  {
    if name == "runRoundRobin" then Some(RoundRobin)
    else if name == "runSrt" then Some(Srt)
    else if name == "runSjn" then Some(Sjn)
    else if name == "runPriority" then Some(Priority)
    else None
  }

  /** The engine selected by an algorithm value: `"run"` followed by the value
      with its first character upper-cased. */
  function ParsePolicy(algorithm: string): Option<Policy> {
    Lookup("run" + Capitalize(algorithm))
  }

  /** Each menu value starts with a lower-case letter and selects its own engine. */
  lemma {:induction false} MenuSelects(p: Policy)
    ensures MenuValue(p) != [] && 'a' <= MenuValue(p)[0] <= 'z'
    ensures EngineName(p) == "run" + Capitalize(MenuValue(p))
    ensures ParsePolicy(MenuValue(p)) == Some(p)
  {
    var m := MenuValue(p);
    assert 'a' <= m[0] <= 'z';
    assert Capitalize(m) == [Upper(m[0])] + m[1..];
    assert "run" + Capitalize(m) == EngineName(p);
  }

  /** Distinct engines have distinct names. */
  lemma {:induction false} EngineNamesDiffer(p: Policy, q: Policy)
    requires p != q
    ensures EngineName(p) != EngineName(q)
  {
    if |EngineName(p)| == |EngineName(q)| {
      assert {p, q} == {Srt, Sjn};
      assert EngineName(p)[4] != EngineName(q)[4];
    }
  }

  /** The lookup finds an engine exactly under its own name. */
  lemma {:induction false} LookupExactly(name: string, p: Policy)
    ensures Lookup(name) == Some(p) <==> name == EngineName(p)
  {
    if name == EngineName(p) {
      var r := Lookup(name);
      if r != Some(p) {
        assert r.Some?;
        EngineNamesDiffer(r.value, p);
      }
    }
  }

  /** Two values capitalize alike exactly when they agree after their first
      character, and their first characters upper-case alike. For a value
      starting with a lower-case letter, that leaves the value itself and the
      value capitalized. */
  lemma {:induction false} CapitalizeCollides(a: string, m: string)
    requires m != [] && 'a' <= m[0] <= 'z'
    ensures Capitalize(a) == Capitalize(m) <==> a == m || a == Capitalize(m)
  {
    if Capitalize(a) == Capitalize(m) {
      assert a != [];
      assert a[1..] == Capitalize(a)[1..] == m[1..];
      assert Upper(a[0]) == Capitalize(a)[0] == Upper(m[0]);
      assert a[0] == m[0] || a[0] == Upper(m[0]);
      assert a == [a[0]] + a[1..];
      assert m == [m[0]] + m[1..];
    }
    if a == Capitalize(m) {
      assert a[0] == Upper(m[0]) && 'A' <= a[0] <= 'Z';
      assert Capitalize(a) == [Upper(a[0])] + a[1..] == [Upper(m[0])] + m[1..];
    }
  }

  lemma {:induction false} PrefixCancel(x: string, a: string, b: string)
    ensures x + a == x + b <==> a == b
  {
    if x + a == x + b {
      assert a == (x + a)[|x|..] && b == (x + b)[|x|..];
    }
  }

  /** An algorithm value selects an engine exactly when it is that engine's menu
      value, or the menu value with its first letter already in upper case. */
  lemma {:induction false} ParsePolicyExactly(algorithm: string, p: Policy)
    ensures ParsePolicy(algorithm) == Some(p) <==>
            algorithm == MenuValue(p) || algorithm == Capitalize(MenuValue(p))
  {
    MenuSelects(p);
    LookupExactly("run" + Capitalize(algorithm), p);
    PrefixCancel("run", Capitalize(algorithm), Capitalize(MenuValue(p)));
    CapitalizeCollides(algorithm, MenuValue(p));
  }

  /** What a run shows: the records after the engine, and its Gantt chart; or the
      reason no engine ran. */
  datatype Outcome = Ran(procs: seq<Proc>, gantt: seq<Entry>) | UnknownAlgorithm | InvalidQuantum

  /** Rows numbered from 0 prepare to records with distinct ids. */
  lemma {:induction false} PreparedForms(forms: seq<Form>)
    requires IdsFrom(forms, 0)
    ensures Prepared(Prepare(forms))
  {
    var s := Prepare(forms);
    PrepareIdsIncreasing(forms, 0);
    forall i | 0 <= i < |s| ensures Fresh(s[i]) { assert s[i] in s; }
    forall i, j | 0 <= i < |s| && 0 <= j < |s| && i != j ensures s[i].pid != s[j].pid {
      if i < j { assert s[i].pid < s[j].pid; } else { assert s[j].pid < s[i].pid; }
    }
  }

  /** Runs one engine on a fresh array holding the prepared records, and returns the
      records as the engine leaves them and its Gantt chart. */
  method RunEngine(prepared: seq<Proc>, policy: Policy, quantum: int) returns (procs: seq<Proc>, gantt: seq<Entry>)
    requires Prepared(prepared)
    requires policy == RoundRobin && quantum <= 0 ==> prepared == []
    ensures Schedule(procs, gantt)
    // with no records every loop condition fails at once: nothing runs
    ensures prepared == [] ==> procs == [] && gantt == []
    ensures policy == RoundRobin ==> SameInputs(procs, prepared) && RoundRobinEngine.QuantumBounded(gantt, quantum)
    ensures policy == Srt || policy == Sjn ==>
              SameInputs(procs, SortBy(prepared, ArrivalKey)) && ArrivalSorted(procs)
    ensures policy == Sjn || policy == Priority ==> RunsWhole(procs, gantt)
    ensures policy == Priority ==> SameInputs(procs, prepared)
  {
    if policy == RoundRobin && quantum <= 0 {
      // the loop condition `some(p => p.remainingTime > 0)` fails on no records
      return [], [];
    }
    var ps := new Proc[|prepared|](i requires 0 <= i < |prepared| => prepared[i]);
    assert ps[..] == prepared;
    match policy {
      case RoundRobin => gantt := RoundRobinEngine.RunRoundRobin(ps, quantum);
      case Srt => gantt := SrtEngine.RunSrt(ps);
      case Sjn => gantt := SjnEngine.RunSjn(ps);
      case Priority => gantt := PriorityEngine.RunPriority(ps);
    }
    procs := ps[..];
    if prepared == [] {
      EmptySchedule(procs, gantt);
    }
  }

  method RunScheduling(forms: seq<Form>, algorithm: string, quantum: int) returns (out: Outcome)
    requires IdsFrom(forms, 0)
    ensures ParsePolicy(algorithm).None? ==> out == UnknownAlgorithm
    ensures ParsePolicy(algorithm) == Some(RoundRobin) && quantum <= 0 && Prepare(forms) != [] ==> out == InvalidQuantum
    ensures out.Ran? <==> ParsePolicy(algorithm).Some? &&
                          (ParsePolicy(algorithm) == Some(RoundRobin) && quantum <= 0 ==> Prepare(forms) == [])
    ensures out.Ran? ==> Schedule(out.procs, out.gantt)
    ensures out.Ran? && Prepare(forms) == [] ==> out.procs == [] && out.gantt == []
    ensures out.Ran? && ParsePolicy(algorithm) == Some(RoundRobin) ==>
              SameInputs(out.procs, Prepare(forms)) && RoundRobinEngine.QuantumBounded(out.gantt, quantum)
    ensures out.Ran? && (ParsePolicy(algorithm) == Some(Srt) || ParsePolicy(algorithm) == Some(Sjn)) ==>
              SameInputs(out.procs, SortBy(Prepare(forms), ArrivalKey)) && ArrivalSorted(out.procs)
    ensures out.Ran? && (ParsePolicy(algorithm) == Some(Sjn) || ParsePolicy(algorithm) == Some(Priority)) ==>
              RunsWhole(out.procs, out.gantt)
    ensures out.Ran? && ParsePolicy(algorithm) == Some(Priority) ==> SameInputs(out.procs, Prepare(forms))
  {
    var prepared := Prepare(forms);
    PreparedForms(forms);
    var policy := ParsePolicy(algorithm);
    if policy.None? {
      return UnknownAlgorithm;
    }
    if policy.value == RoundRobin && quantum <= 0 && prepared != [] {
      return InvalidQuantum;
    }
    var procs, gantt := RunEngine(prepared, policy.value, quantum);
    out := Ran(procs, gantt);
  }
}
