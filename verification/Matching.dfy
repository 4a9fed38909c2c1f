/**
 Matching workers to a capability query, by structure only: the worker's class and its
 required block, never its class extension.
*/
module Matching {
  import opened Basics
  import opened JsonText

  /** The required block. Certification entries without an id count as None; descriptor types
      that are not declared mean all types are accepted. */
  datatype RequiredBlock = RequiredBlock(methods: seq<string>, descriptorTypes: Option<seq<string>>,
                                         certificationIds: seq<Option<string>>, venueId: Option<string>)

  datatype Worker = Worker(workerId: string, workerClass: string, required: RequiredBlock, classExtension: JSON)

  datatype Query = Empty | Query(methods: seq<string>, descriptorTypes: seq<string>, certifications: seq<string>,
                                 venueId: Option<string>)

  predicate AllIn<T(==)>(wanted: seq<T>, supported: seq<T>) {
    forall x | x in wanted :: x in supported
  }

  function Ids(ids: seq<string>): seq<Option<string>> {
    seq(|ids|, i requires 0 <= i < |ids| => Some(ids[i]))
  }

  /** What the query asks of a worker, stated outright. */
  predicate Satisfies(q: Query, r: RequiredBlock) {
    q.Empty? ||
    (&& AllIn(q.methods, r.methods)
     && (r.descriptorTypes.Some? ==> AllIn(q.descriptorTypes, r.descriptorTypes.value))
     && AllIn(Ids(q.certifications), r.certificationIds)
     && (q.venueId.Some? ==> r.venueId == q.venueId))
  }

  predicate Selected(w: Worker, q: Query, classes: seq<string>) {
    (classes == [] || w.workerClass in classes) && Satisfies(q, w.required)
  }

  /** The selected workers, in table order. */
  function Matches(table: seq<Worker>, q: Query, classes: seq<string>): seq<Worker> {
    if table == [] then []
    else
      var w := table[|table| - 1];
      Matches(table[..|table| - 1], q, classes) + (if Selected(w, q, classes) then [w] else [])
  }

  /** The class filter of the query. */
  method Candidates(table: seq<Worker>, classes: seq<string>) returns (found: seq<Worker>)
    ensures found == Matches(table, Empty, classes)
  {
    found := [];
    for i := 0 to |table|
      invariant found == Matches(table[..i], Empty, classes)
    {
      assert table[..i + 1][..i] == table[..i];
      if classes == [] || table[i].workerClass in classes {
        found := found + [table[i]];
      }
    }
    assert table[..|table|] == table;
  }

  method MatchingWorkers(table: seq<Worker>, q: Query, classes: seq<string>) returns (matched: seq<Worker>)
    ensures matched == Matches(table, q, classes)
  {
    var candidates := Candidates(table, classes);
    if q.Empty? {
      return candidates;
    }
    matched := [];
    for i := 0 to |candidates|
      invariant matched == Matches(candidates[..i], q, [])
    {
      assert candidates[..i + 1][..i] == candidates[..i];
      var r := candidates[i].required;
      if q.methods != [] && !AllIn(q.methods, r.methods) {
        continue;
      }
      if q.descriptorTypes != [] && r.descriptorTypes.Some? && !AllIn(q.descriptorTypes, r.descriptorTypes.value) {
        continue;
      }
      if q.certifications != [] && !AllIn(Ids(q.certifications), r.certificationIds) {
        continue;
      }
      if q.venueId.Some? && r.venueId != q.venueId {
        continue;
      }
      matched := matched + [candidates[i]];
    }
    assert candidates[..|candidates|] == candidates;
    FilterTwice(table, q, classes);
  }

  lemma {:induction false} MatchesAppend(a: seq<Worker>, b: seq<Worker>, q: Query, classes: seq<string>)
    ensures Matches(a + b, q, classes) == Matches(a, q, classes) + Matches(b, q, classes)
  {
    if b == [] {
      assert a + b == a;
    } else {
      assert (a + b)[..|a + b| - 1] == a + b[..|b| - 1];
      MatchesAppend(a, b[..|b| - 1], q, classes);
    }
  }

  /** Filtering by class first and by query afterwards is filtering by both. */
  lemma {:induction false} FilterTwice(table: seq<Worker>, q: Query, classes: seq<string>)
    ensures Matches(Matches(table, Empty, classes), q, []) == Matches(table, q, classes)
  {
    if table != [] {
      var init, w := table[..|table| - 1], table[|table| - 1];
      FilterTwice(init, q, classes);
      if Selected(w, Empty, classes) {
        MatchesAppend(Matches(init, Empty, classes), [w], q, []);
        assert Matches([w][..0], q, []) == [];
      } else {
        assert Matches(init, Empty, classes) + [] == Matches(init, Empty, classes);
      }
    }
  }

  // ----- what matching does not look at, and how it grows ---------------------------------

  ghost predicate DifferInExtensionOnly(a: Worker, b: Worker) {
    a == b.(classExtension := a.classExtension)
  }

  ghost predicate SameBlocks(a: seq<Worker>, b: seq<Worker>) {
    |a| == |b| && forall i | 0 <= i < |a| :: DifferInExtensionOnly(a[i], b[i])
  }

  /** Tables that differ only in class extensions give results that differ only there. */
  lemma {:induction false} ExtensionIgnored(a: seq<Worker>, b: seq<Worker>, q: Query, classes: seq<string>)
    requires SameBlocks(a, b)
    ensures SameBlocks(Matches(a, q, classes), Matches(b, q, classes))
    ensures forall i | 0 <= i < |a| :: Selected(a[i], q, classes) == Selected(b[i], q, classes)
  {
    if a != [] {
      assert SameBlocks(a[..|a| - 1], b[..|b| - 1]);
      ExtensionIgnored(a[..|a| - 1], b[..|b| - 1], q, classes);
      assert DifferInExtensionOnly(a[|a| - 1], b[|b| - 1]);
    }
  }

  /** The query as one with all its fields: the empty query asks nothing. */
  function Asked(q: Query): Query {
    if q.Empty? then Query([], [], [], None) else q
  }

  /** Field by field, `strong` asks for all that `weak` asks for. */
  predicate Stronger(strong: Query, weak: Query) {
    var s, w := Asked(strong), Asked(weak);
    && AllIn(w.methods, s.methods) && AllIn(w.descriptorTypes, s.descriptorTypes)
    && AllIn(w.certifications, s.certifications) && (w.venueId.Some? ==> s.venueId == w.venueId)
  }

  lemma IdsIn(ids: seq<string>, id: string)
    ensures id in ids <==> Some(id) in Ids(ids)
  {
    if id in ids {
      var i :| 0 <= i < |ids| && ids[i] == id;
      assert Ids(ids)[i] == Some(id);
    }
  }

  lemma IdsAllIn(wanted: seq<string>, offered: seq<string>)
    ensures AllIn(Ids(wanted), Ids(offered)) <==> AllIn(wanted, offered)
  {
    forall id ensures id in wanted <==> Some(id) in Ids(wanted) {
      IdsIn(wanted, id);
    }
    forall id ensures id in offered <==> Some(id) in Ids(offered) {
      IdsIn(offered, id);
    }
    assert forall x | x in Ids(wanted) :: x.Some?;
  }

  /** The worker that offers just what the query asks for. */
  function Fitting(q: Query): RequiredBlock {
    var a := Asked(q);
    RequiredBlock(a.methods, Some(a.descriptorTypes), Ids(a.certifications), a.venueId)
  }

  /** A query asks for more, field by field, exactly when every worker that satisfies it
      satisfies the other. */
  lemma StrongerExactly(strong: Query, weak: Query)
    ensures Stronger(strong, weak) <==> forall r :: Satisfies(strong, r) ==> Satisfies(weak, r)
  {
    var s, w := Asked(strong), Asked(weak);
    IdsAllIn(w.certifications, s.certifications);
    if Stronger(strong, weak) {
      forall r | Satisfies(strong, r) ensures Satisfies(weak, r) {
        AskedSame(strong, r);
        AskedSame(weak, r);
      }
    } else {
      var r := Fitting(strong);
      AskedSame(strong, r);
      AskedSame(weak, r);
      assert Satisfies(strong, r) && !Satisfies(weak, r);
    }
  }

  lemma AskedSame(q: Query, r: RequiredBlock)
    ensures Satisfies(Asked(q), r) <==> Satisfies(q, r)
  {
  }

  /** Asking for more never finds another worker: what the stronger query matches is what it
      matches among the workers the weaker one found. */
  lemma {:induction false} StrongerShrinks(table: seq<Worker>, weak: Query, strong: Query, classes: seq<string>)
    requires Stronger(strong, weak)
    ensures Matches(table, strong, classes) == Matches(Matches(table, weak, classes), strong, classes)
  {
    if table != [] {
      var init, w := table[..|table| - 1], table[|table| - 1];
      StrongerShrinks(init, weak, strong, classes);
      StrongerExactly(strong, weak);
      hide Satisfies, Stronger;
      if Selected(w, weak, classes) {
        MatchesAppend(Matches(init, weak, classes), [w], strong, classes);
        assert [w][..0] == [];
        assert Matches([w], strong, classes)
            == Matches([], strong, classes) + (if Selected(w, strong, classes) then [w] else []);
      } else {
        assert Satisfies(strong, w.required) ==> Satisfies(weak, w.required);
        assert Matches(init, weak, classes) + [] == Matches(init, weak, classes);
      }
    }
  }
}
