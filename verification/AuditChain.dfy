/**
 The hash-linked, signed audit log: a table of rows shared by all claims, the append
 that links a row to the latest row of its claim, and the walk that re-checks a claim.
*/
module AuditChain {
  import opened Basics
  import opened JsonText
  import opened Canonical
  import CanonicalEncoders

  /** The hash and the signer, as arbitrary functions. */
  datatype Crypto = Crypto(hash: string -> string, sign: string -> string, verify: (string, string) -> bool)

  /** What is known of them: a digest has 64 characters, and a signature made verifies.
      The hash is not taken to be injective; results about it name a collision instead. */
  ghost predicate Sound(c: Crypto) {
    (forall d :: |c.hash(d)| == 64) && (forall d :: c.verify(d, c.sign(d)))
  }

  datatype Entry = Entry(eventType: string, actor: string, payload: Dict,
                         claimId: Option<string>, taskId: Option<string>, timestamp: int)

  datatype Row = Row(entry: Entry, payloadHash: string, prevHash: Option<string>, thisHash: string, sig: string)

  /** `x or ""` */
  function OrEmpty(x: Option<string>): string {
    match x
    case None => ""
    case Some(s) => s
  }

  // ----- queries --------------------------------------------------------------------

  predicate Names(r: Row, claimId: string) {
    r.entry.claimId == Some(claimId)
  }

  /** The rows of a claim in the order they were added. */
  function ClaimRows(rows: seq<Row>, claimId: string): seq<Row> {
    if rows == [] then []
    else
      var r := rows[|rows| - 1];
      ClaimRows(rows[..|rows| - 1], claimId) + (if Names(r, claimId) then [r] else [])
  }

  function InsertByTime(rs: seq<Row>, r: Row): seq<Row> {
    if rs == [] || rs[|rs| - 1].entry.timestamp <= r.entry.timestamp then rs + [r]
    else InsertByTime(rs[..|rs| - 1], r) + [rs[|rs| - 1]]
  }

  function ByTime(rs: seq<Row>): seq<Row> {
    if rs == [] then [] else InsertByTime(ByTime(rs[..|rs| - 1]), rs[|rs| - 1])
  }

  /** The rows of a claim ordered by timestamp, as every reader of the log sees them. */
  function Chain(rows: seq<Row>, claimId: string): seq<Row> {
    ByTime(ClaimRows(rows, claimId))
  }

  function LatestHash(rows: seq<Row>, claimId: string): Option<string> {
    var rs := Chain(rows, claimId);
    if rs == [] then None else Some(rs[|rs| - 1].thisHash)
  }

  // ----- what a row binds -------------------------------------------------------------

  function LinkJson(e: Entry, payloadHash: string, prevHash: Option<string>): JSON {
    JObject(map["event_type" := JString(e.eventType),
                "actor_did" := JString(e.actor),
                "timestamp" := JInt(e.timestamp),
                "payload_hash" := JString(payloadHash),
                "prev_hash" := JString(OrEmpty(prevHash)),
                "claim_id" := JString(OrEmpty(e.claimId)),
                "task_id" := JString(OrEmpty(e.taskId))])
  }

  ghost function LinkBytes(e: Entry, payloadHash: string, prevHash: Option<string>): string {
    Canon(Python, LinkJson(e, payloadHash, prevHash))
  }

  ghost function PayloadBytes(payload: Dict): string {
    Canon(Python, JObject(payload))
  }

  function PrevFor(rows: seq<Row>, claimId: Option<string>): Option<string> {
    if claimId.Some? && claimId.value != "" then LatestHash(rows, claimId.value) else None
  }

  /** The row that appending `e` adds to the table. */
  ghost function MakeRow(c: Crypto, rows: seq<Row>, e: Entry): Row {
    var prev := PrevFor(rows, e.claimId);
    var payloadHash := c.hash(PayloadBytes(e.payload));
    var link := LinkBytes(e, payloadHash, prev);
    Row(e, payloadHash, prev, c.hash(link), c.sign(link))
  }

  /** The four checks `verify_chain` makes of one row. */
  ghost predicate RowOk(c: Crypto, r: Row, prev: Option<string>) {
    && r.prevHash == prev
    && c.hash(PayloadBytes(r.entry.payload)) == r.payloadHash
    && c.hash(LinkBytes(r.entry, r.payloadHash, r.prevHash)) == r.thisHash
    && c.verify(LinkBytes(r.entry, r.payloadHash, r.prevHash), r.sig)
  }

  function PrevIn(rs: seq<Row>, i: nat): Option<string>
    requires i <= |rs|
  {
    if i == 0 then None else Some(rs[i - 1].thisHash)
  }

  ghost predicate ChainOk(c: Crypto, rs: seq<Row>) {
    forall i | 0 <= i < |rs| :: RowOk(c, rs[i], PrevIn(rs, i))
  }

  // ----- the log as an object ---------------------------------------------------------

  class AuditLog {
    var rows: seq<Row>
    const crypto: Crypto

    constructor (crypto: Crypto)
      ensures rows == [] && this.crypto == crypto
    {
      this.crypto := crypto;
      rows := [];
    }

    method Append(e: Entry) returns (thisHash: string, prevHash: Option<string>)
      modifies this
      ensures rows == old(rows) + [MakeRow(crypto, old(rows), e)]
      ensures thisHash == rows[|rows| - 1].thisHash && prevHash == rows[|rows| - 1].prevHash
    {
      prevHash := None;
      if e.claimId.Some? && e.claimId.value != "" {
        prevHash := LatestHash(rows, e.claimId.value);
      }
      var payloadBytes := CanonicalEncoders.CanonicalJson(Python, JObject(e.payload));
      var payloadHash := crypto.hash(payloadBytes);
      var linkBytes := CanonicalEncoders.CanonicalJson(Python, LinkJson(e, payloadHash, prevHash));
      thisHash := crypto.hash(linkBytes);
      rows := rows + [Row(e, payloadHash, prevHash, thisHash, crypto.sign(linkBytes))];
    }

    /** The body of the walk: the checks of one row. */
    method CheckRow(r: Row, prev: Option<string>) returns (ok: bool)
      ensures ok <==> RowOk(crypto, r, prev)
    {
      if r.prevHash != prev {
        return false;
      }
      var payloadBytes := CanonicalEncoders.CanonicalJson(Python, JObject(r.entry.payload));
      if crypto.hash(payloadBytes) != r.payloadHash {
        return false;
      }
      var linkBytes := CanonicalEncoders.CanonicalJson(Python, LinkJson(r.entry, r.payloadHash, r.prevHash));
      if crypto.hash(linkBytes) != r.thisHash {
        return false;
      }
      ok := crypto.verify(linkBytes, r.sig);
    }

    method VerifyChain(claimId: string) returns (ok: bool)
      ensures ok <==> ChainOk(crypto, Chain(rows, claimId))
    {
      hide RowOk, Chain;
      var entries := Chain(rows, claimId);
      var prev: Option<string> := None;
      for i := 0 to |entries|
        invariant prev == PrevIn(entries, i)
        invariant forall j | 0 <= j < i :: RowOk(crypto, entries[j], PrevIn(entries, j))
      {
        ok := CheckRow(entries[i], prev);
        if !ok {
          return;
        }
        prev := Some(entries[i].thisHash);
      }
      ok := true;
    }
  }
}
