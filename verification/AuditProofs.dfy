/** What the audit log guarantees: links survive appends, and no history can be rewritten. */
module AuditProofs {
  import opened Basics
  import opened JsonText
  import opened Canonical
  import opened AuditChain

  // ----- ordering by timestamp --------------------------------------------------------

  ghost predicate Increasing(rs: seq<Row>) {
    forall i, j | 0 <= i < j < |rs| :: rs[i].entry.timestamp < rs[j].entry.timestamp
  }

  ghost predicate Ordered(rs: seq<Row>) {
    forall i, j | 0 <= i < j < |rs| :: rs[i].entry.timestamp <= rs[j].entry.timestamp
  }

  /** Where a row lands: before the later rows, after the others. */
  lemma {:induction false} InsertedAt(rs: seq<Row>, r: Row) returns (k: nat)
    requires Ordered(rs)
    ensures k <= |rs| && InsertByTime(rs, r) == rs[..k] + [r] + rs[k..]
    ensures forall i | 0 <= i < k :: rs[i].entry.timestamp <= r.entry.timestamp
    ensures forall i | k <= i < |rs| :: r.entry.timestamp < rs[i].entry.timestamp
  {
    if rs == [] || rs[|rs| - 1].entry.timestamp <= r.entry.timestamp {
      k := |rs|;
      assert rs[..k] == rs && rs[k..] == [];
    } else {
      var init := rs[..|rs| - 1];
      k := InsertedAt(init, r);
      assert rs[..k] == init[..k] && rs[k..] == init[k..] + [rs[|rs| - 1]];
    }
  }

  lemma {:induction false} ByTimeOrdered(rs: seq<Row>)
    ensures Ordered(ByTime(rs))
  {
    if rs != [] {
      ByTimeOrdered(rs[..|rs| - 1]);
      var s, r := ByTime(rs[..|rs| - 1]), rs[|rs| - 1];
      var k := InsertedAt(s, r);
      OrderedInsert(s, r, k);
    }
  }

  lemma OrderedInsert(s: seq<Row>, r: Row, k: nat)
    requires Ordered(s) && k <= |s|
    requires forall i | 0 <= i < k :: s[i].entry.timestamp <= r.entry.timestamp
    requires forall i | k <= i < |s| :: r.entry.timestamp < s[i].entry.timestamp
    ensures Ordered(s[..k] + [r] + s[k..])
  {
  }

  lemma {:induction false} InsertPermutes(rs: seq<Row>, r: Row)
    ensures multiset(InsertByTime(rs, r)) == multiset(rs) + multiset{r}
  {
    if rs != [] && rs[|rs| - 1].entry.timestamp > r.entry.timestamp {
      InsertPermutes(rs[..|rs| - 1], r);
      assert rs == rs[..|rs| - 1] + [rs[|rs| - 1]];
    }
  }

  /** Sorting loses no row and invents none. */
  lemma {:induction false} ByTimePermutes(rs: seq<Row>)
    ensures multiset(ByTime(rs)) == multiset(rs)
  {
    if rs != [] {
      ByTimePermutes(rs[..|rs| - 1]);
      InsertPermutes(ByTime(rs[..|rs| - 1]), rs[|rs| - 1]);
      assert rs == rs[..|rs| - 1] + [rs[|rs| - 1]];
    }
  }

  lemma {:induction false} ByTimeIncreasing(rs: seq<Row>)
    requires Increasing(rs)
    ensures ByTime(rs) == rs
  {
    if rs != [] {
      var init, r := rs[..|rs| - 1], rs[|rs| - 1];
      IncreasingPrefix(rs, |rs| - 1);
      ByTimeIncreasing(init);
      assert init != [] ==> init[|init| - 1].entry.timestamp < r.entry.timestamp;
      hide Increasing;
      assert rs == init + [r];
    }
  }

  lemma IncreasingPrefix(rs: seq<Row>, n: nat)
    requires Increasing(rs) && n <= |rs|
    ensures Increasing(rs[..n])
  {
  }

  lemma ClaimRowsAppend(rows: seq<Row>, r: Row, claimId: string)
    ensures ClaimRows(rows + [r], claimId) == ClaimRows(rows, claimId) + (if Names(r, claimId) then [r] else [])
  {
    assert (rows + [r])[..|rows|] == rows;
  }

  // ----- appending keeps the chain, exactly when time moves forward -----------------------

  lemma OkAfter(c: Crypto, rs: seq<Row>, r: Row)
    requires ChainOk(c, rs) && RowOk(c, r, PrevIn(rs, |rs|))
    ensures ChainOk(c, rs + [r])
  {
    hide RowOk;
    var t := rs + [r];
    forall i | 0 <= i < |t| ensures RowOk(c, t[i], PrevIn(t, i)) {
      assert i < |rs| ==> RowOk(c, rs[i], PrevIn(rs, i)) && PrevIn(t, i) == PrevIn(rs, i);
    }
  }

  /** `timestamp` is later than every row's. */
  ghost predicate Later(rs: seq<Row>, timestamp: int) {
    forall i | 0 <= i < |rs| :: rs[i].entry.timestamp < timestamp
  }

  ghost predicate NoTie(rs: seq<Row>, timestamp: int) {
    forall i | 0 <= i < |rs| :: rs[i].entry.timestamp != timestamp
  }

  /** What `verify_chain` hashes of a row besides its payload. */
  ghost function RowLink(r: Row): string { LinkBytes(r.entry, r.payloadHash, r.prevHash) }

  /** Two rows of `rs` whose link bytes differ and hash alike. */
  ghost predicate LinksCollide(c: Crypto, rs: seq<Row>, p: Row, q: Row) {
    p in rs && q in rs && Collision(c.hash, RowLink(p), RowLink(q))
  }

  /** Appending to a sound chain keeps it sound if the new timestamp is the largest of the
      claim; if it is not (and ties with none), the chain is broken, unless two rows already
      in the chain collide. */
  lemma AppendExactly(c: Crypto, rows: seq<Row>, e: Entry, claimId: string) returns (p: Row, q: Row)
    requires Sound(c) && claimId != "" && e.claimId == Some(claimId)
    requires ChainOk(c, Chain(rows, claimId)) && NoTie(Chain(rows, claimId), e.timestamp)
    ensures var after := Chain(rows + [MakeRow(c, rows, e)], claimId);
      var later := Later(Chain(rows, claimId), e.timestamp);
      (later ==> ChainOk(c, after)) && (ChainOk(c, after) ==> later || LinksCollide(c, Chain(rows, claimId), p, q))
  {
    hide RowOk, MakeRow, ChainOk, Chain;
    var rs, r := Chain(rows, claimId), MakeRow(c, rows, e);
    MadeRowOk(c, rows, e);
    ChainAppend(rows, r, claimId);
    ChainOrdered(rows, claimId);
    p, q := InsertExactly(c, rs, r);
  }

  lemma ChainOrdered(rows: seq<Row>, claimId: string)
    ensures Ordered(Chain(rows, claimId))
    ensures LatestHash(rows, claimId) == PrevIn(Chain(rows, claimId), |Chain(rows, claimId)|)
  {
    ByTimeOrdered(ClaimRows(rows, claimId));
  }

  lemma InsertExactly(c: Crypto, rs: seq<Row>, r: Row) returns (p: Row, q: Row)
    requires Sound(c) && ChainOk(c, rs) && Ordered(rs) && NoTie(rs, r.entry.timestamp)
    requires RowOk(c, r, PrevIn(rs, |rs|))
    ensures var after := InsertByTime(rs, r);
      var later := Later(rs, r.entry.timestamp);
      (later ==> ChainOk(c, after)) && (ChainOk(c, after) ==> later || LinksCollide(c, rs, p, q))
  {
    p, q := r, r;
    assert r.prevHash == PrevIn(rs, |rs|);
    hide RowOk, ChainOk, InsertByTime, Sound;
    var k := InsertedAt(rs, r);
    if k == |rs| {
      assert rs[..k] + [r] + rs[k..] == rs + [r];
      OkAfter(c, rs, r);
    } else {
      p, q := OutOfOrder(c, rs, r, InsertByTime(rs, r), k);
    }
  }

  lemma MadeRowOk(c: Crypto, rows: seq<Row>, e: Entry)
    requires Sound(c)
    ensures MakeRow(c, rows, e).entry == e && MakeRow(c, rows, e).prevHash == PrevFor(rows, e.claimId)
    ensures RowOk(c, MakeRow(c, rows, e), PrevFor(rows, e.claimId))
  {
  }

  lemma ChainAppend(rows: seq<Row>, r: Row, claimId: string)
    ensures Chain(rows + [r], claimId)
         == if Names(r, claimId) then InsertByTime(Chain(rows, claimId), r) else Chain(rows, claimId)
  {
    ClaimRowsAppend(rows, r, claimId);
    var all := ClaimRows(rows, claimId) + [r];
    assert all[..|all| - 1] == ClaimRows(rows, claimId);
    assert ClaimRows(rows, claimId) + [] == ClaimRows(rows, claimId);
  }

  /** A row linked to the last row but placed before it shows a broken link or a collision. */
  lemma OutOfOrder(c: Crypto, rs: seq<Row>, r: Row, after: seq<Row>, k: nat) returns (p: Row, q: Row)
    requires Sound(c) && ChainOk(c, rs) && Ordered(rs) && k < |rs|
    requires after == rs[..k] + [r] + rs[k..]
    requires r.prevHash == Some(rs[|rs| - 1].thisHash)
    requires forall i | 0 <= i < k :: rs[i].entry.timestamp < r.entry.timestamp
    requires r.entry.timestamp < rs[k].entry.timestamp
    ensures ChainOk(c, after) ==> LinksCollide(c, rs, p, q)
  {
    p, q := r, r;
    if ChainOk(c, after) {
      assert after[k] == r && RowOk(c, after[k], PrevIn(after, k));
      assert k > 0;
      p, q := rs[k - 1], rs[|rs| - 1];
      assert after[k - 1] == p;
      assert RowOk(c, rs[k - 1], PrevIn(rs, k - 1)) && RowOk(c, rs[|rs| - 1], PrevIn(rs, |rs| - 1));
      assert p.entry.timestamp < q.entry.timestamp;
      if RowLink(p) == RowLink(q) {
        LinkBinds(p, q);
        assert false;
      }
    }
  }

  // ----- the log built by appends ---------------------------------------------------------

  /** Every row was made by an append to the table as it then was. */
  ghost predicate Authentic(c: Crypto, rows: seq<Row>) {
    rows == [] ||
    (Authentic(c, rows[..|rows| - 1])
     && rows[|rows| - 1] == MakeRow(c, rows[..|rows| - 1], rows[|rows| - 1].entry))
  }

  lemma AuthenticAppend(c: Crypto, rows: seq<Row>, e: Entry)
    requires Authentic(c, rows)
    ensures Authentic(c, rows + [MakeRow(c, rows, e)])
  {
    assert (rows + [MakeRow(c, rows, e)])[..|rows|] == rows;
  }

  /** Whatever claims the appends interleave, a claim whose timestamps strictly increase
      verifies, and reading it by timestamp is reading it in the order of appending. */
  lemma {:induction false} AuthenticVerifies(c: Crypto, rows: seq<Row>, claimId: string)
    requires Sound(c) && Authentic(c, rows) && claimId != ""
    requires Increasing(ClaimRows(rows, claimId))
    ensures Chain(rows, claimId) == ClaimRows(rows, claimId)
    ensures ChainOk(c, Chain(rows, claimId))
  {
    ByTimeIncreasing(ClaimRows(rows, claimId));
    if rows != [] {
      var init, r := rows[..|rows| - 1], rows[|rows| - 1];
      var before := ClaimRows(init, claimId);
      assert Increasing(before) by {
        forall i, j | 0 <= i < j < |before| ensures before[i].entry.timestamp < before[j].entry.timestamp {
          assert ClaimRows(rows, claimId)[i] == before[i] && ClaimRows(rows, claimId)[j] == before[j];
        }
      }
      AuthenticVerifies(c, init, claimId);
      if Names(r, claimId) {
        OkAfter(c, before, r);
      }
    }
  }

  ghost predicate NoTies(rs: seq<Row>) {
    forall i, j | 0 <= i < j < |rs| :: rs[i].entry.timestamp != rs[j].entry.timestamp
  }

  lemma ClaimRowsPrefix(rows: seq<Row>, claimId: string)
    requires rows != []
    ensures ClaimRows(rows[..|rows| - 1], claimId) <= ClaimRows(rows, claimId)
  {
  }

  lemma NoTiesPrefix(a: seq<Row>, b: seq<Row>)
    requires a <= b && NoTies(b)
    ensures NoTies(a)
  {
    forall i, j | 0 <= i < j < |a| ensures a[i].entry.timestamp != a[j].entry.timestamp {
      assert b[i] == a[i] && b[j] == a[j];
    }
  }

  /** If timestamps do not increase, some row was linked to a row that is later than itself. */
  lemma {:induction false} BackwardLink(c: Crypto, rows: seq<Row>, claimId: string) returns (r: Row, m: Row)
    requires Authentic(c, rows) && claimId != "" && NoTies(ClaimRows(rows, claimId))
    requires !Increasing(ClaimRows(rows, claimId))
    ensures r in ClaimRows(rows, claimId) && m in ClaimRows(rows, claimId)
    ensures r.entry.timestamp < m.entry.timestamp && r.prevHash == Some(m.thisHash)
  {
    var init, all := rows[..|rows| - 1], ClaimRows(rows, claimId);
    var before := ClaimRows(init, claimId);
    ClaimRowsPrefix(rows, claimId);
    NoTiesPrefix(before, all);
    if !Increasing(before) {
      r, m := BackwardLink(c, init, claimId);
    } else {
      r := rows[|rows| - 1];
      LinkedToLatest(c, init, r, claimId);
      assert all == before + [r];
      m := NotLater(before, r);
    }
  }

  lemma LinkedToLatest(c: Crypto, rows: seq<Row>, r: Row, claimId: string)
    requires Increasing(ClaimRows(rows, claimId)) && claimId != ""
    requires r == MakeRow(c, rows, r.entry)
    ensures var rs := ClaimRows(rows, claimId);
      Names(r, claimId) && rs != [] ==> r.prevHash == Some(rs[|rs| - 1].thisHash)
  {
    ByTimeIncreasing(ClaimRows(rows, claimId));
  }

  lemma NotLater(before: seq<Row>, r: Row) returns (m: Row)
    requires Increasing(before) && !Increasing(before + [r]) && NoTies(before + [r])
    ensures before != [] && m == before[|before| - 1] && r.entry.timestamp < m.entry.timestamp
  {
    var all := before + [r];
    var i, j :| 0 <= i < j < |all| && all[i].entry.timestamp >= all[j].entry.timestamp;
    assert j == |before|;
    m := before[|before| - 1];
    assert all[|before| - 1] == m && all[|before|] == r;
  }

  /** A chain in which a row is linked to a later row cannot verify, but for a collision. */
  lemma BackwardLinkShows(c: Crypto, s: seq<Row>, i: nat, j: nat) returns (p: Row, q: Row)
    requires ChainOk(c, s) && Ordered(s) && i < |s| && j < |s|
    requires s[i].entry.timestamp < s[j].entry.timestamp && s[i].prevHash == Some(s[j].thisHash)
    ensures LinksCollide(c, s, p, q)
  {
    assert RowOk(c, s[i], PrevIn(s, i)) && RowOk(c, s[j], PrevIn(s, j));
    p, q := s[i - 1], s[j];
    assert RowOk(c, s[i - 1], PrevIn(s, i - 1));
    if RowLink(p) == RowLink(q) {
      LinkBinds(p, q);
    }
  }

  /** Exactly when a claim verifies, in a table built by appends, however they interleave its
      claims: when its timestamps increase in the order of appending. Timestamps that tie are
      excluded, and the only other way to verify is that two rows of the claim collide. */
  lemma VerifiesExactly(c: Crypto, rows: seq<Row>, claimId: string) returns (p: Row, q: Row)
    requires Sound(c) && Authentic(c, rows) && claimId != "" && NoTies(ClaimRows(rows, claimId))
    ensures Increasing(ClaimRows(rows, claimId)) ==> ChainOk(c, Chain(rows, claimId))
    ensures ChainOk(c, Chain(rows, claimId)) ==>
      Increasing(ClaimRows(rows, claimId)) || LinksCollide(c, Chain(rows, claimId), p, q)
  {
    hide ChainOk, Sound, Authentic, ClaimRows, Increasing, NoTies;
    p, q := *, *;
    var rs, s := ClaimRows(rows, claimId), Chain(rows, claimId);
    if Increasing(rs) {
      AuthenticVerifies(c, rows, claimId);
    } else if ChainOk(c, s) {
      var r, m := BackwardLink(c, rows, claimId);
      ByTimePermutes(rs);
      ByTimeOrdered(rs);
      assert r in multiset(rs) && m in multiset(rs);
      assert r in s && m in s;
      var i :| 0 <= i < |s| && s[i] == r;
      var j :| 0 <= j < |s| && s[j] == m;
      p, q := BackwardLinkShows(c, s, i, j);
    }
  }

  // ----- tamper evidence --------------------------------------------------------------------

  /** Two rows that say the same, a missing id and an empty one being the same. */
  ghost predicate SameRecord(p: Row, q: Row) {
    && p.entry.eventType == q.entry.eventType
    && p.entry.actor == q.entry.actor
    && p.entry.timestamp == q.entry.timestamp
    && p.entry.payload == q.entry.payload
    && OrEmpty(p.entry.claimId) == OrEmpty(q.entry.claimId)
    && OrEmpty(p.entry.taskId) == OrEmpty(q.entry.taskId)
    && p.payloadHash == q.payloadHash && p.prevHash == q.prevHash && p.thisHash == q.thisHash
  }

  /** Equal link bytes mean equal link fields, because canonical JSON is faithful. */
  lemma LinkBinds(p: Row, q: Row)
    requires LinkBytes(p.entry, p.payloadHash, p.prevHash) == LinkBytes(q.entry, q.payloadHash, q.prevHash)
    ensures p.entry.eventType == q.entry.eventType && p.entry.actor == q.entry.actor
    ensures p.entry.timestamp == q.entry.timestamp && p.payloadHash == q.payloadHash
    ensures OrEmpty(p.prevHash) == OrEmpty(q.prevHash)
    ensures OrEmpty(p.entry.claimId) == OrEmpty(q.entry.claimId)
    ensures OrEmpty(p.entry.taskId) == OrEmpty(q.entry.taskId)
  {
    hide Canon, LinkJson;
    var v, w := LinkJson(p.entry, p.payloadHash, p.prevHash), LinkJson(q.entry, q.payloadHash, q.prevHash);
    CanonInjective(Python, v, w);
    LinkFields(p.entry, p.payloadHash, p.prevHash);
    LinkFields(q.entry, q.payloadHash, q.prevHash);
  }

  lemma LinkFields(e: Entry, payloadHash: string, prevHash: Option<string>)
    ensures var v := LinkJson(e, payloadHash, prevHash);
      && v.JObject?
      && "event_type" in v.members && v.members["event_type"] == JString(e.eventType)
      && "actor_did" in v.members && v.members["actor_did"] == JString(e.actor)
      && "timestamp" in v.members && v.members["timestamp"] == JInt(e.timestamp)
      && "payload_hash" in v.members && v.members["payload_hash"] == JString(payloadHash)
      && "prev_hash" in v.members && v.members["prev_hash"] == JString(OrEmpty(prevHash))
      && "claim_id" in v.members && v.members["claim_id"] == JString(OrEmpty(e.claimId))
      && "task_id" in v.members && v.members["task_id"] == JString(OrEmpty(e.taskId))
  {
  }

  /** `x` is what is hashed of the row's payload or of its link fields. */
  ghost predicate HashedOf(r: Row, x: string) {
    x == PayloadBytes(r.entry.payload) || x == RowLink(r)
  }

  ghost predicate HashedIn(rs: seq<Row>, x: string) {
    exists i | 0 <= i < |rs| :: HashedOf(rs[i], x)
  }

  /** Rows that pass the checks and carry the same hash say the same, or what is hashed of the
      one collides with what is hashed of the other. */
  lemma HashBinds(c: Crypto, p: Row, q: Row, prevP: Option<string>, prevQ: Option<string>)
    returns (x: string, y: string)
    requires RowOk(c, p, prevP) && RowOk(c, q, prevQ) && p.thisHash == q.thisHash
    requires (prevP.Some? ==> prevP.value != "") && (prevQ.Some? ==> prevQ.value != "")
    ensures SameRecord(p, q) || (Collision(c.hash, x, y) && HashedOf(p, x) && HashedOf(q, y))
  {
    x := LinkBytes(p.entry, p.payloadHash, p.prevHash);
    y := LinkBytes(q.entry, q.payloadHash, q.prevHash);
    if x == y {
      LinkBinds(p, q);
      x, y := PayloadBytes(p.entry.payload), PayloadBytes(q.entry.payload);
      if x == y {
        CanonInjective(Python, JObject(p.entry.payload), JObject(q.entry.payload));
      }
    }
  }

  /** Two histories that say the same, entry by entry. */
  ghost predicate SameHistory(a: seq<Row>, b: seq<Row>) {
    |a| == |b| && forall i | 0 <= i < |a| :: SameRecord(a[i], b[i])
  }

  /** Tamper evidence: two histories that both verify and end in the same hash are the same
      history, or something hashed of the one collides with something hashed of the other. */
  lemma {:induction false} TamperEvident(c: Crypto, a: seq<Row>, b: seq<Row>) returns (x: string, y: string)
    requires Sound(c) && ChainOk(c, a) && ChainOk(c, b)
    requires a != [] && b != [] && a[|a| - 1].thisHash == b[|b| - 1].thisHash
    ensures SameHistory(a, b) || (Collision(c.hash, x, y) && HashedIn(a, x) && HashedIn(b, y))
  {
    hide RowOk, ChainOk, Sound, SameHistory, HashedOf, HashedIn, SameRecord;
    var p, q := a[|a| - 1], b[|b| - 1];
    PrevNotEmpty(c, a);
    PrevNotEmpty(c, b);
    x, y := HashBinds(c, p, q, PrevIn(a, |a| - 1), PrevIn(b, |b| - 1));
    if SameRecord(p, q) {
      SameLinks(p, q);
      if |a| > 1 {
        PrefixOk(c, a, |a| - 1);
        PrefixOk(c, b, |b| - 1);
        x, y := TamperEvident(c, a[..|a| - 1], b[..|b| - 1]);
        HashedInMore(a, x);
        HashedInMore(b, y);
      }
      SameExtends(a, b);
    } else {
      HashedInLast(a, x);
      HashedInLast(b, y);
    }
  }

  lemma SameLinks(p: Row, q: Row)
    requires SameRecord(p, q)
    ensures p.prevHash == q.prevHash
  {
  }

  lemma HashedInLast(rs: seq<Row>, x: string)
    requires rs != [] && HashedOf(rs[|rs| - 1], x)
    ensures HashedIn(rs, x)
  {
  }

  lemma HashedInMore(rs: seq<Row>, x: string)
    requires rs != []
    ensures HashedIn(rs[..|rs| - 1], x) ==> HashedIn(rs, x)
  {
    var init := rs[..|rs| - 1];
    if HashedIn(init, x) {
      var i :| 0 <= i < |init| && HashedOf(init[i], x);
      assert HashedOf(rs[i], x);
    }
  }

  lemma SameExtends(a: seq<Row>, b: seq<Row>)
    requires a != [] && b != [] && SameRecord(a[|a| - 1], b[|b| - 1])
    ensures SameHistory(a[..|a| - 1], b[..|b| - 1]) ==> SameHistory(a, b)
    ensures |a| == |b| == 1 ==> SameHistory(a, b)
  {
    hide SameRecord;
    if SameHistory(a[..|a| - 1], b[..|b| - 1]) {
      forall i | 0 <= i < |a| - 1 ensures SameRecord(a[i], b[i]) {
        assert a[..|a| - 1][i] == a[i] && b[..|b| - 1][i] == b[i];
      }
    }
  }

  lemma PrevNotEmpty(c: Crypto, a: seq<Row>)
    requires Sound(c) && ChainOk(c, a) && a != []
    ensures RowOk(c, a[|a| - 1], PrevIn(a, |a| - 1))
    ensures a[|a| - 1].prevHash == PrevIn(a, |a| - 1)
    ensures |a| > 1 ==> PrevIn(a, |a| - 1).value != ""
  {
    if |a| > 1 {
      assert RowOk(c, a[|a| - 2], PrevIn(a, |a| - 2));
    }
  }

  lemma PrefixOk(c: Crypto, a: seq<Row>, n: nat)
    requires ChainOk(c, a) && n <= |a|
    ensures ChainOk(c, a[..n])
  {
    forall i | 0 <= i < n ensures RowOk(c, a[..n][i], PrevIn(a[..n], i)) {
      assert RowOk(c, a[i], PrevIn(a, i));
    }
  }
}
