/** Aggregating the verdicts on submitted evidence against a task's requirement. */
module Threshold {
  import opened Basics

  datatype Decision = Pass | Review | Fail

  datatype Requirement = Requirement(modes: seq<string>, threshold: Option<string>, m: Option<int>, n: Option<int>)

  /** One verdict, in submission order, under the mode it was submitted for. */
  datatype Verdict = Verdict(mode: string, decision: Decision)

  function CountOf(vs: seq<Verdict>, d: Decision): nat {
    if vs == [] then 0
    else CountOf(vs[..|vs| - 1], d) + (if vs[|vs| - 1].decision == d then 1 else 0)
  }

  function PassingModes(vs: seq<Verdict>): set<string> {
    set v | v in vs && v.decision == Pass :: v.mode
  }

  function Evaluate(req: Requirement, vs: seq<Verdict>): Decision {
    var passes, fails, reviews := CountOf(vs, Pass), CountOf(vs, Fail), CountOf(vs, Review);
    var threshold := match req.threshold case None => "all" case Some(t) => t;
    if threshold == "any" then
      if passes >= 1 then Pass
      else if reviews >= 1 && fails == 0 then Review
      else Fail
    else if threshold == "all" then
      var required := set mode | mode in req.modes;
      var passing := PassingModes(vs);
      if required != {} && required <= passing && fails == 0 then Pass
      else if fails > 0 || required - passing != {} then Fail
      else Review
    else if threshold == "M-of-N" then
      if req.m.None? || req.n.None? then Fail
      else if req.m.value > req.n.value then Fail
      else if passes >= req.m.value then Pass
      else if passes + reviews >= req.m.value && fails == 0 then Review
      else Fail
    else Fail
  }

  // ----- only which verdicts there are matters, not their order ------------------------

  lemma {:induction false} CountAppend(a: seq<Verdict>, b: seq<Verdict>, d: Decision)
    ensures CountOf(a + b, d) == CountOf(a, d) + CountOf(b, d)
  {
    if b == [] {
      assert a + b == a;
    } else {
      assert (a + b)[..|a + b| - 1] == a + b[..|b| - 1];
      CountAppend(a, b[..|b| - 1], d);
    }
  }

  lemma TakeOut(a: seq<Verdict>, b: seq<Verdict>, init: seq<Verdict>, rest: seq<Verdict>, k: nat, v: Verdict)
    requires multiset(a) == multiset(b) && a == init + [v]
    requires k <= |rest| && b == rest[..k] + [v] + rest[k..]
    ensures multiset(init) == multiset(rest)
  {
    assert rest == rest[..k] + rest[k..];
    assert multiset(b) == multiset(rest) + multiset{v};
    assert multiset(init) == multiset(a) - multiset{v};
  }

  lemma {:induction false} CountPermutation(a: seq<Verdict>, b: seq<Verdict>, d: Decision)
    requires multiset(a) == multiset(b)
    ensures CountOf(a, d) == CountOf(b, d)
  {
    if a == [] {
      assert |multiset(b)| == 0;
    } else {
      var init, last := a[..|a| - 1], a[|a| - 1];
      assert a == init + [last];
      assert last in multiset(b);
      var j :| 0 <= j < |b| && b[j] == last;
      var rest := b[..j] + b[j + 1..];
      assert b == rest[..j] + [last] + rest[j..];
      TakeOut(a, b, init, rest, j, last);
      CountPermutation(init, rest, d);
      CountWithout(rest, j, last, d);
    }
  }

  lemma CountWithout(rest: seq<Verdict>, j: nat, v: Verdict, d: Decision)
    requires j <= |rest|
    ensures CountOf(rest[..j] + [v] + rest[j..], d) == CountOf(rest, d) + (if v.decision == d then 1 else 0)
  {
    CountAppend(rest[..j], rest[j..], d);
    CountAppend(rest[..j], [v], d);
    CountAppend(rest[..j] + [v], rest[j..], d);
    assert rest == rest[..j] + rest[j..];
    assert [v][..0] == [] && CountOf([v], d) == if v.decision == d then 1 else 0;
    hide CountOf;
  }

  /** The decision depends only on the multiset of verdicts. */
  lemma EvaluateIgnoresOrder(req: Requirement, a: seq<Verdict>, b: seq<Verdict>)
    requires multiset(a) == multiset(b)
    ensures Evaluate(req, a) == Evaluate(req, b)
  {
    CountPermutation(a, b, Pass);
    CountPermutation(a, b, Fail);
    CountPermutation(a, b, Review);
    assert forall v :: v in a <==> v in multiset(a);
    assert forall v :: v in b <==> v in multiset(b);
    assert PassingModes(a) == PassingModes(b);
  }

  // ----- better evidence never lowers the decision --------------------------------------

  function Rank(d: Decision): nat {
    match d case Fail => 0 case Review => 1 case Pass => 2
  }

  /** `b` is `a` with some verdicts upgraded and some passing verdicts added. */
  ghost predicate Upgrades(a: seq<Verdict>, b: seq<Verdict>) {
    && |a| <= |b|
    && (forall i | 0 <= i < |a| :: a[i].mode == b[i].mode && Rank(a[i].decision) <= Rank(b[i].decision))
    && (forall i | |a| <= i < |b| :: b[i].decision == Pass)
  }

  lemma {:induction false} UpgradeCounts(a: seq<Verdict>, b: seq<Verdict>)
    requires Upgrades(a, b)
    ensures CountOf(a, Pass) <= CountOf(b, Pass) && CountOf(b, Fail) <= CountOf(a, Fail)
    ensures CountOf(a, Pass) + CountOf(a, Review) <= CountOf(b, Pass) + CountOf(b, Review)
    decreases |b|
  {
    if |a| < |b| {
      UpgradeCounts(a, b[..|b| - 1]);
    } else if a != [] {
      UpgradeCounts(a[..|a| - 1], b[..|b| - 1]);
    }
  }

  /** Upgrading verdicts or adding passing ones never lowers the decision, whatever the
      requirement. */
  lemma EvaluateMonotone(req: Requirement, a: seq<Verdict>, b: seq<Verdict>)
    requires Upgrades(a, b)
    ensures Rank(Evaluate(req, a)) <= Rank(Evaluate(req, b))
  {
    UpgradeCounts(a, b);
    forall mode | mode in PassingModes(a) ensures mode in PassingModes(b) {
      var i :| 0 <= i < |a| && a[i].decision == Pass && a[i].mode == mode;
      assert b[i] in b;
    }
  }

  /** A requirement for `all` that names a mode never leaves a submission under review. */
  lemma AllNeverReview(req: Requirement, vs: seq<Verdict>)
    requires req.threshold == Some("all") && req.modes != []
    ensures Evaluate(req, vs) != Review
  {
    var passing := PassingModes(vs);
    var required := set mode | mode in req.modes;
    assert req.modes[0] in required;
    if !(required <= passing) {
      var mode :| mode in required && mode !in passing;
      assert mode in required - passing;
    }
  }

  // ----- exactly when the evidence suffices -----------------------------------------------

  /** Where the submission has a verdict of that kind. */
  function Positions(vs: seq<Verdict>, d: Decision): set<nat> {
    set i: nat | i < |vs| && vs[i].decision == d
  }

  lemma PositionsNext(init: seq<Verdict>, v: Verdict, d: Decision)
    ensures Positions(init + [v], d) == Positions(init, d) + if v.decision == d then {|init|} else {}
    ensures |init| !in Positions(init, d)
  {
  }

  lemma {:induction false} CountPositions(vs: seq<Verdict>, d: Decision)
    ensures CountOf(vs, d) == |Positions(vs, d)|
  {
    if vs == [] {
      assert Positions(vs, d) == {};
    } else {
      var init, v := vs[..|vs| - 1], vs[|vs| - 1];
      CountPositions(init, d);
      assert vs == init + [v];
      PositionsNext(init, v, d);
      hide Positions;
    }
  }

  lemma CountIs(vs: seq<Verdict>, d: Decision)
    ensures CountOf(vs, d) == |Positions(vs, d)|
    ensures CountOf(vs, d) > 0 <==> exists v | v in vs :: v.decision == d
  {
    CountPositions(vs, d);
    hide CountOf;
    if v :| v in vs && v.decision == d {
      var i :| 0 <= i < |vs| && vs[i] == v;
      assert i in Positions(vs, d);
    }
    if Positions(vs, d) != {} {
      var i :| i in Positions(vs, d);
      assert vs[i] in vs;
    }
  }

  lemma Missing(required: set<string>, passing: set<string>)
    ensures required - passing == {} <==> required <= passing
  {
    assert forall x | x in required && x !in passing :: x in required - passing;
  }

  /** One passing verdict for `any`; for `all` (the default) a passing verdict for every named
      mode and no failing one; for `M-of-N` at least M passing verdicts. */
  ghost predicate Suffices(req: Requirement, vs: seq<Verdict>) {
    || (req.threshold == Some("any") && exists v | v in vs :: v.decision == Pass)
    || ((req.threshold == Some("all") || req.threshold == None) && req.modes != []
        && (forall mode | mode in req.modes :: exists v | v in vs :: v.mode == mode && v.decision == Pass)
        && (forall v | v in vs :: v.decision != Fail))
    || (req.threshold == Some("M-of-N") && req.m.Some? && req.n.Some? && req.m.value <= req.n.value
        && |Positions(vs, Pass)| >= req.m.value)
  }

  /** Nothing failed, and the verdicts still under review could suffice. */
  ghost predicate Awaits(req: Requirement, vs: seq<Verdict>) {
    && (forall v | v in vs :: v.decision != Fail)
    && (|| (req.threshold == Some("any") && (forall v | v in vs :: v.decision == Review) && vs != [])
        || ((req.threshold == Some("all") || req.threshold == None) && req.modes == [])
        || (req.threshold == Some("M-of-N") && req.m.Some? && req.n.Some? && req.m.value <= req.n.value
            && |Positions(vs, Pass)| < req.m.value <= |Positions(vs, Pass)| + |Positions(vs, Review)|))
  }

  lemma PassingFor(vs: seq<Verdict>, mode: string)
    ensures mode in PassingModes(vs) <==> exists v | v in vs :: v.mode == mode && v.decision == Pass
  {
  }

  lemma AllExactly(req: Requirement, vs: seq<Verdict>)
    requires req.threshold == Some("all") || req.threshold == None
    ensures Evaluate(req, vs) == Pass <==> Suffices(req, vs)
    ensures Evaluate(req, vs) == Review <==> Awaits(req, vs)
  {
    CountIs(vs, Fail);
    hide CountOf;
    var passing, required := PassingModes(vs), set mode | mode in req.modes;
    forall mode ensures mode in passing <==> exists v | v in vs :: v.mode == mode && v.decision == Pass {
      PassingFor(vs, mode);
    }
    hide PassingModes;
    assert required == {} <==> req.modes == [] by {
      assert req.modes != [] ==> req.modes[0] in required;
    }
    Missing(required, passing);
    assert required <= passing <==> forall mode | mode in req.modes :: mode in passing;
  }

  /** The decision, exactly, for every requirement and every submission. */
  lemma EvaluateExactly(req: Requirement, vs: seq<Verdict>)
    ensures Evaluate(req, vs) == Pass <==> Suffices(req, vs)
    ensures Evaluate(req, vs) == Review <==> Awaits(req, vs)
  {
    if req.threshold == Some("all") || req.threshold == None {
      AllExactly(req, vs);
    } else {
      CountIs(vs, Pass);
      CountIs(vs, Review);
      CountIs(vs, Fail);
      hide CountOf, PassingModes, Positions;
      assert vs != [] ==> vs[0] in vs;
      assert forall v | v in vs :: v.decision == Pass || v.decision == Review || v.decision == Fail;
    }
  }
}
