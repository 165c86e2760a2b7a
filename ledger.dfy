/**
 The query ledger as a value: the append-only sequence of submitted queries
 and the counter that numbers them. Only accepted submissions consume a
 number, and every new query starts out "Pending".
 */
module Ledger {
  import opened Records

  const Pending: string := "Pending"

  /** The id returned for a rejected submission. */
  const RejectedId: int := -1

  datatype LedgerState = LedgerState(queries: seq<Query>, nextId: int)

  /** One submission as the caller hands it over. */
  datatype Request = Request(roll: int, name: string, message: string)

  /** A counter that starts at 1 and is consumed only by appends numbers the ledger 1, 2, ..., n and stands at n + 1. */
  ghost predicate Numbered(l: LedgerState)
  {
    && (forall k :: 0 <= k < |l.queries| ==> l.queries[k].id == k + 1)
    && l.nextId == |l.queries| + 1
  }

  const Empty: LedgerState := LedgerState([], 1)

  /** The fields a submission demands: a positive roll, a name and a message. */
  predicate Accepts(r: Request)
  {
    r.roll > 0 && r.name != [] && r.message != []
  }

  /** One submission: the new ledger and the id handed back. */
  function Submit(l: LedgerState, r: Request): (LedgerState, int)
  {
    if Accepts(r) then
      (LedgerState(l.queries + [Query(l.nextId, r.roll, r.name, r.message, Pending)], l.nextId + 1), l.nextId)
    else
      (l, RejectedId)
  }

  /** Several submissions in order: the final ledger and the ids handed back, one per request. */
  function SubmitAll(l: LedgerState, rs: seq<Request>): (LedgerState, seq<int>)
    decreases |rs|
  {
    if rs == [] then (l, [])
    else
      var (l1, id) := Submit(l, rs[0]);
      var (l2, ids) := SubmitAll(l1, rs[1..]);
      (l2, [id] + ids)
  }

  /** The ids of the accepted submissions, in order. */
  function Accepted(ids: seq<int>): seq<int>
  {
    if ids == [] then []
    else (if ids[0] == RejectedId then [] else [ids[0]]) + Accepted(ids[1..])
  }

  /** The empty ledger is numbered. */
  lemma EmptyNumbered()
    ensures Numbered(Empty) && Empty.queries == []
  {
  }

  /** A submission keeps the numbering; an accepted one gets the next number, a rejected one leaves everything as it was. */
  lemma SubmitKeepsNumbered(l: LedgerState, r: Request)
    requires Numbered(l)
    ensures Numbered(Submit(l, r).0)
    ensures Accepts(r) ==> Submit(l, r).1 == |l.queries| + 1 && Submit(l, r).0.queries[|l.queries|].status == Pending
    ensures !Accepts(r) ==> Submit(l, r) == (l, RejectedId)
  {
    var l' := Submit(l, r).0;
    if Accepts(r) {
      assert forall k :: 0 <= k < |l.queries| ==> l'.queries[k] == l.queries[k];
    }
  }

  /** In a numbered ledger the ids strictly increase and none repeats. */
  lemma NumberedIdsIncrease(l: LedgerState)
    requires Numbered(l)
    ensures forall i, j :: 0 <= i < j < |l.queries| ==> l.queries[i].id < l.queries[j].id
    ensures forall k :: 0 <= k < |l.queries| ==> 0 < l.queries[k].id < l.nextId
  {
  }

  /**
   Any run of submissions, accepted and rejected interleaved, hands back -1
   exactly for the rejected ones, and the accepted ones receive consecutive ids
   starting at the counter's value before the run; the existing queries stay.
   */
  lemma {:induction false} SubmitAllNumbersConsecutively(l: LedgerState, rs: seq<Request>)
    requires Numbered(l)
    ensures var (l', ids) := SubmitAll(l, rs);
      && Numbered(l')
      && |ids| == |rs|
      && (forall k :: 0 <= k < |rs| ==> (ids[k] == RejectedId <==> !Accepts(rs[k])))
      && l.queries <= l'.queries
      && Accepted(ids) == seq(l'.nextId - l.nextId, n => l.nextId + n)
    decreases |rs|
  {
    if rs != [] {
      var (l1, id) := Submit(l, rs[0]);
      SubmitKeepsNumbered(l, rs[0]);
      SubmitAllNumbersConsecutively(l1, rs[1..]);
      var (l2, ids) := SubmitAll(l1, rs[1..]);
      assert SubmitAll(l, rs) == (l2, [id] + ids);
      var all := [id] + ids;
      assert all[1..] == ids;
      forall k | 0 <= k < |rs|
        ensures all[k] == RejectedId <==> !Accepts(rs[k])
      {
        if k > 0 {
          assert all[k] == ids[k - 1] && rs[k] == rs[1..][k - 1];
        }
      }
      var tail := seq(l2.nextId - l1.nextId, n => l1.nextId + n);
      if Accepts(rs[0]) {
        assert Accepted(all) == [l.nextId] + tail;
        assert [l.nextId] + tail == seq(l2.nextId - l.nextId, n => l.nextId + n);
      } else {
        assert Accepted(all) == tail;
      }
    }
  }
}
