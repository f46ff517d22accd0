/** Reassembly of multi-part messages over sixteen slots, and the ring of recent event ids. */
module Reassembly {
  import opened Wrappers
  import opened Varint

  const SLOTS := 16
  const EXPIRY_MS := 5000

  type MsgId = seq<Byte>

  datatype Slot =
    | Free
    | Pending(msgId: MsgId, sum: nat, parts: seq<Option<seq<Byte>>>, createdMs: nat)

  datatype Event =
    | Deliver(now: nat, msgId: Option<MsgId>, sum: int, seqNo: int, data: seq<Byte>)
    | Cleanup(now: nat)

  // ----- one slot

  function Concat(parts: seq<seq<Byte>>): seq<Byte> {
    if parts == [] then [] else Concat(parts[..|parts| - 1]) + parts[|parts| - 1]
  }

  predicate AllPresent(parts: seq<Option<seq<Byte>>>) {
    forall i | 0 <= i < |parts| :: parts[i].Some?
  }

  function Values(parts: seq<Option<seq<Byte>>>): (r: seq<seq<Byte>>)
    requires AllPresent(parts)
  {
    seq(|parts|, i requires 0 <= i < |parts| => parts[i].value)
  }

  function Fresh(id: MsgId, sum: nat, now: nat): Slot {
    Pending(id, sum, seq(sum, _ => None), now)
  }

  predicate Reusable(s: Slot, id: MsgId, sum: nat) {
    s.Pending? && s.msgId == id && s.sum == sum && |s.parts| == sum
  }

  /** A part stored in its slot; a completed slot is freed and yields the message. */
  function Store(s: Slot, now: nat, id: MsgId, sum: nat, seqNo: nat, data: seq<Byte>): (Slot, Option<seq<Byte>>)
    requires seqNo < sum
  {
    var base := if Reusable(s, id, sum) then s else Fresh(id, sum, now);
    var parts := base.parts[seqNo := Some(data)];
    if AllPresent(parts) then (Free, Some(Concat(Values(parts))))
    else (base.(parts := parts), None)
  }

  // ----- the sixteen slots

  /** No two slots share an id, and no occupied slot is complete. */
  predicate WellFormed(slots: seq<Slot>) {
    && |slots| == 16
    && (forall i, j | 0 <= i < j < |slots| && slots[i].Pending? && slots[j].Pending? ::
          slots[i].msgId != slots[j].msgId)
    && (forall i | 0 <= i < |slots| && slots[i].Pending? ::
          && 1 < slots[i].sum == |slots[i].parts|
          && !AllPresent(slots[i].parts))
  }

  predicate Holds(s: Slot, id: MsgId) {
    s.Pending? && s.msgId == id
  }

  function FirstHolding(slots: seq<Slot>, id: MsgId): (i: nat)
    ensures i <= |slots|
    ensures i < |slots| ==> Holds(slots[i], id)
    ensures forall j | 0 <= j < i :: !Holds(slots[j], id)
  {
    if slots == [] || Holds(slots[0], id) then 0 else 1 + FirstHolding(slots[1..], id)
  }

  function FirstFree(slots: seq<Slot>): (i: nat)
    ensures i <= |slots|
    ensures i < |slots| ==> slots[i].Free?
    ensures forall j | 0 <= j < i :: slots[j].Pending?
  {
    if slots == [] || slots[0].Free? then 0 else 1 + FirstFree(slots[1..])
  }

  /** The slot a part goes to: its own, else the first free one, else the first, evicted. */
  function Pick(slots: seq<Slot>, id: MsgId): (i: nat)
    requires |slots| == SLOTS
    ensures i < SLOTS
  {
    if FirstHolding(slots, id) < SLOTS then FirstHolding(slots, id)
    else if FirstFree(slots) < SLOTS then FirstFree(slots)
    else 0
  }

  predicate Valid(id: Option<MsgId>, sum: int, seqNo: int) {
    id.Some? && sum > 1 && 0 <= seqNo < sum
  }

  function Expire(s: Slot, now: nat): Slot {
    if s.Pending? && now > s.createdMs + EXPIRY_MS then Free else s
  }

  function Step(slots: seq<Slot>, e: Event): (seq<Slot>, Option<seq<Byte>>)
    requires |slots| == SLOTS
  {
    match e
    case Cleanup(now) =>
      (seq(SLOTS, i requires 0 <= i < SLOTS => Expire(slots[i], now)), None)
    case Deliver(now, id, sum, seqNo, data) =>
      if !Valid(id, sum, seqNo) then (slots, None)
      else
        var i := Pick(slots, id.value);
        var (s, r) := Store(slots[i], now, id.value, sum, seqNo, data);
        (slots[i := s], r)
  }

  class Assembler {
    var pending: array<Slot>

    ghost predicate Ready()
      reads this, pending
    {
      pending.Length == SLOTS && WellFormed(pending[..])
    }

    constructor ()
      ensures Ready() && fresh(pending)
      ensures forall i | 0 <= i < SLOTS :: pending[i] == Free
    {
      pending := new Slot[SLOTS](_ => Free);
    }

    method FindSlot(id: MsgId) returns (i: nat)
      requires pending.Length == SLOTS
      ensures i == Pick(pending[..], id)
    {
      i := 0;
      while i < SLOTS
        invariant i <= SLOTS
        invariant forall j | 0 <= j < i :: !Holds(pending[j], id)
      {
        if Holds(pending[i], id) {
          assert FirstHolding(pending[..], id) == i;
          return;
        }
        i := i + 1;
      }
      assert FirstHolding(pending[..], id) == SLOTS;
      i := 0;
      while i < SLOTS
        invariant i <= SLOTS
        invariant forall j | 0 <= j < i :: pending[j].Pending?
      {
        if pending[i].Free? {
          assert FirstFree(pending[..]) == i;
          return;
        }
        i := i + 1;
      }
      assert FirstFree(pending[..]) == SLOTS;
      i := 0;
    }

    /** Places one part; Some when it was the last one missing. */
    method CombinePayload(now: nat, id: Option<MsgId>, sum: int, seqNo: int, data: seq<Byte>)
      returns (r: Option<seq<Byte>>)
      requires Ready()
      modifies pending
      ensures Ready()
      ensures (pending[..], r) == Step(old(pending[..]), Deliver(now, id, sum, seqNo, data))
    {
      StepKeepsWellFormed(pending[..], Deliver(now, id, sum, seqNo, data));
      if id.None? || sum <= 1 || seqNo < 0 || seqNo >= sum {
        return None;
      }
      var slot := FindSlot(id.value);
      if pending[slot].Free? || pending[slot].msgId != id.value || pending[slot].sum != sum {
        pending[slot] := Fresh(id.value, sum, now);
      }
      var parts := pending[slot].parts[seqNo := Some(data)];
      pending[slot] := pending[slot].(parts := parts);
      var all: seq<Byte> := [];
      for i := 0 to sum
        invariant forall j | 0 <= j < i :: parts[j].Some?
      {
        if parts[i].None? {
          assert pending[..] == Step(old(pending[..]), Deliver(now, id, sum, seqNo, data)).0;
          return None;
        }
      }
      for i := 0 to sum
        invariant all == Concat(Values(parts)[..i])
      {
        assert Values(parts)[..i + 1][..i] == Values(parts)[..i];
        all := all + parts[i].value;
      }
      assert Values(parts)[..sum] == Values(parts);
      pending[slot] := Free;
      assert pending[..] == Step(old(pending[..]), Deliver(now, id, sum, seqNo, data)).0;
      return Some(all);
    }

    method CleanupExpired(now: nat)
      requires Ready()
      modifies pending
      ensures Ready()
      ensures pending[..] == Step(old(pending[..]), Cleanup(now)).0
    {
      StepKeepsWellFormed(pending[..], Cleanup(now));
      for i := 0 to SLOTS
        invariant forall j | 0 <= j < i :: pending[j] == Expire(old(pending[j]), now)
        invariant forall j | i <= j < SLOTS :: pending[j] == old(pending[j])
      {
        if pending[i].Pending? && now > pending[i].createdMs + EXPIRY_MS {
          pending[i] := Free;
        }
      }
    }
  }

  lemma StepKeepsWellFormed(slots: seq<Slot>, e: Event)
    requires WellFormed(slots)
    ensures WellFormed(Step(slots, e).0)
  {
    if e.Deliver? && Valid(e.msgId, e.sum, e.seqNo) {
      var i := Pick(slots, e.msgId.value);
      var (s, _) := Store(slots[i], e.now, e.msgId.value, e.sum, e.seqNo, e.data);
      forall j | 0 <= j < SLOTS && j != i && slots[j].Pending?
        ensures slots[j].msgId != e.msgId.value
      {
        assert !Holds(slots[j], e.msgId.value);
      }
    }
  }

  // ----- the slots refine a table from message id to slot

  function Lookup(slots: seq<Slot>, id: MsgId): Slot {
    var i := FirstHolding(slots, id);
    if i < |slots| then slots[i] else Free
  }

  lemma LookupIs(slots: seq<Slot>, id: MsgId, i: nat)
    requires WellFormed(slots) && i < SLOTS && Holds(slots[i], id)
    ensures Lookup(slots, id) == slots[i]
  {
  }

  /** Room: an id of its own slot, or a free one. Otherwise the first slot is evicted. */
  predicate HasRoom(slots: seq<Slot>, id: MsgId)
    requires |slots| == SLOTS
  {
    FirstHolding(slots, id) < SLOTS || FirstFree(slots) < SLOTS
  }

  /** A delivery changes the entry of its own id as if it were alone, and no other entry;
      only without room does it lose one, the first slot's. */
  lemma DeliverRefinesTable(slots: seq<Slot>, e: Event, id: MsgId)
    requires WellFormed(slots) && e.Deliver? && Valid(e.msgId, e.sum, e.seqNo)
    ensures var (after, r) := Step(slots, e);
            var (s, r') := Store(Lookup(slots, e.msgId.value), e.now, e.msgId.value, e.sum, e.seqNo, e.data);
            && r == r'
            && Lookup(after, id) ==
                 if id == e.msgId.value then s
                 else if !HasRoom(slots, e.msgId.value) && Holds(slots[0], id) then Free
                 else Lookup(slots, id)
  {
    StepKeepsWellFormed(slots, e);
    var own := e.msgId.value;
    var i := Pick(slots, own);
    var (after, _) := Step(slots, e);
    assert forall j | 0 <= j < SLOTS && j != i :: after[j] == slots[j] && !Holds(after[j], own);
    if id == own {
      if after[i].Pending? {
        LookupIs(after, id, i);
      }
    } else {
      var k := FirstHolding(slots, id);
      if k < SLOTS && k != i {
        LookupIs(after, id, k);
      } else {
        assert forall j | 0 <= j < SLOTS :: !Holds(after[j], id);
      }
    }
  }

  lemma CleanupRefinesTable(slots: seq<Slot>, now: nat, id: MsgId)
    requires WellFormed(slots)
    ensures Lookup(Step(slots, Cleanup(now)).0, id) == Expire(Lookup(slots, id), now)
  {
    StepKeepsWellFormed(slots, Cleanup(now));
    var after := Step(slots, Cleanup(now)).0;
    var k := FirstHolding(slots, id);
    if k < SLOTS && after[k].Pending? {
      LookupIs(after, id, k);
    } else {
      forall j | 0 <= j < SLOTS ensures !Holds(after[j], id) {
        if Holds(slots[j], id) {
          assert j == k;
        }
      }
    }
  }

  // ----- room by counting ids

  function PendingIds(slots: seq<Slot>): set<MsgId> {
    set i | 0 <= i < |slots| && slots[i].Pending? :: slots[i].msgId
  }

  lemma {:induction false} FullSlotsCount(slots: seq<Slot>)
    requires forall i | 0 <= i < |slots| :: slots[i].Pending?
    requires forall i, j | 0 <= i < j < |slots| :: slots[i].msgId != slots[j].msgId
    ensures |PendingIds(slots)| == |slots|
  {
    if slots != [] {
      var rest := slots[..|slots| - 1];
      FullSlotsCount(rest);
      var last := slots[|slots| - 1];
      assert PendingIds(slots) == PendingIds(rest) + {last.msgId};
    }
  }

  lemma FewIdsHaveRoom(slots: seq<Slot>, id: MsgId, ids: set<MsgId>)
    requires WellFormed(slots)
    requires PendingIds(slots) <= ids && id in ids && |ids| <= 16
    ensures HasRoom(slots, id)
  {
    if !HasRoom(slots, id) {
      FullSlotsCount(slots);
      assert id !in PendingIds(slots);
      SubsetSize(PendingIds(slots), ids - {id});
      assert false;
    }
  }

  lemma {:induction false} SubsetSize<T>(a: set<T>, b: set<T>)
    requires a <= b
    ensures |a| <= |b|
  {
    if a != {} {
      var x :| x in a;
      SubsetSize(a - {x}, b - {x});
    }
  }

  lemma StepKeepsIds(slots: seq<Slot>, e: Event, ids: set<MsgId>)
    requires WellFormed(slots) && PendingIds(slots) <= ids
    requires e.Deliver? && e.msgId.Some? ==> e.msgId.value in ids
    ensures PendingIds(Step(slots, e).0) <= ids
  {
    var after := Step(slots, e).0;
    forall id | id in PendingIds(after) ensures id in ids {
      var i :| 0 <= i < |after| && after[i].Pending? && after[i].msgId == id;
      if slots[i].Pending? && slots[i].msgId == id {
        assert id in PendingIds(slots);
      }
    }
  }

  // ----- order independence

  function After(slots: seq<Slot>, run: seq<Event>): seq<Slot>
    requires WellFormed(slots)
    ensures WellFormed(After(slots, run))
  {
    if run == [] then slots
    else
      var before := After(slots, run[..|run| - 1]);
      StepKeepsWellFormed(before, run[|run| - 1]);
      Step(before, run[|run| - 1]).0
  }

  /** What the k-th event of a run yields. */
  function Yield(slots: seq<Slot>, run: seq<Event>, k: nat): Option<seq<Byte>>
    requires WellFormed(slots) && k < |run|
  {
    Step(After(slots, run[..k]), run[k]).1
  }

  predicate IsPartOf(e: Event, id: MsgId) {
    e.Deliver? && e.msgId == Some(id)
  }

  /** Which parts of the message a run has delivered. */
  function Seen(run: seq<Event>, id: MsgId): set<int> {
    set k | 0 <= k < |run| && IsPartOf(run[k], id) :: run[k].seqNo
  }

  predicate Covers(seen: set<int>, parts: seq<seq<Byte>>) {
    forall k | 0 <= k < |parts| :: k in seen
  }

  /** A run in which every part named `id` belongs to the same message, at most sixteen ids
      occur, and nothing of that message has time to expire. Repeats and order are free. */
  predicate Delivers(run: seq<Event>, id: MsgId, parts: seq<seq<Byte>>, ids: set<MsgId>, start: nat) {
    forall k | 0 <= k < |run| ::
      && (run[k].Deliver? && run[k].msgId.Some? ==> run[k].msgId.value in ids)
      && (IsPartOf(run[k], id) ==>
            && run[k].sum == |parts| && 0 <= run[k].seqNo < |parts|
            && run[k].data == parts[run[k].seqNo] && run[k].now >= start)
      && (run[k].Cleanup? ==> run[k].now <= start + 5000)
  }

  /** The entry of a message of which exactly the parts in `seen` have arrived. */
  predicate Collected(s: Slot, id: MsgId, parts: seq<seq<Byte>>, seen: set<int>, start: nat) {
    if seen == {} then s == Free
    else
      && s.Pending? && s.msgId == id && s.sum == |s.parts| == |parts| && s.createdMs >= start
      && forall k | 0 <= k < |parts| :: s.parts[k] == if k in seen then Some(parts[k]) else None
  }

  lemma StoreCollects(s: Slot, e: Event, id: MsgId, parts: seq<seq<Byte>>, seen: set<int>, start: nat)
    requires |parts| > 1 && Collected(s, id, parts, seen, start) && IsPartOf(e, id)
    requires e.sum == |parts| && 0 <= e.seqNo < |parts| && e.data == parts[e.seqNo] && e.now >= start
    ensures var (s', r) := Store(s, e.now, id, e.sum, e.seqNo, e.data);
            if Covers(seen + {e.seqNo}, parts) then s' == Free && r == Some(Concat(parts))
            else r == None && Collected(s', id, parts, seen + {e.seqNo}, start)
  {
    var base := if Reusable(s, id, e.sum) then s else Fresh(id, e.sum, e.now);
    var stored := base.parts[e.seqNo := Some(e.data)];
    var now := seen + {e.seqNo};
    assert forall k | 0 <= k < |parts| :: stored[k] == if k in now then Some(parts[k]) else None;
    if Covers(now, parts) {
      assert AllPresent(stored);
      assert Values(stored) == parts;
    } else {
      var k :| 0 <= k < |parts| && k !in now;
      assert stored[k].None?;
    }
  }

  lemma SeenSnoc(run: seq<Event>, id: MsgId)
    requires run != []
    ensures var e := run[|run| - 1];
            Seen(run, id) == Seen(run[..|run| - 1], id) + if IsPartOf(e, id) then {e.seqNo} else {}
  {
    var most, e := run[..|run| - 1], run[|run| - 1];
    forall x | x in Seen(run, id) ensures x in Seen(most, id) || (IsPartOf(e, id) && x == e.seqNo) {
      var k :| 0 <= k < |run| && IsPartOf(run[k], id) && run[k].seqNo == x;
      if k < |most| {
        assert most[k] == run[k];
      }
    }
    forall x | x in Seen(most, id) ensures x in Seen(run, id) {
      var k :| 0 <= k < |most| && IsPartOf(most[k], id) && most[k].seqNo == x;
      assert run[k] == most[k];
    }
    if IsPartOf(e, id) {
      assert e.seqNo in Seen(run, id);
    }
  }

  lemma {:induction false} RunCollects(slots: seq<Slot>, run: seq<Event>, id: MsgId, parts: seq<seq<Byte>>, ids: set<MsgId>, start: nat)
    requires WellFormed(slots) && Lookup(slots, id) == Free && |parts| > 1
    requires Delivers(run, id, parts, ids, start)
    requires PendingIds(slots) <= ids && id in ids && |ids| <= 16
    requires !Covers(Seen(run, id), parts)
    ensures Collected(Lookup(After(slots, run), id), id, parts, Seen(run, id), start)
    ensures PendingIds(After(slots, run)) <= ids
  {
    if run != [] {
      var most, e := run[..|run| - 1], run[|run| - 1];
      SeenSnoc(run, id);
      RunCollects(slots, most, id, parts, ids, start);
      var before := After(slots, most);
      StepKeepsIds(before, e, ids);
      if e.Cleanup? {
        CleanupRefinesTable(before, e.now, id);
      } else if Valid(e.msgId, e.sum, e.seqNo) {
        FewIdsHaveRoom(before, e.msgId.value, ids);
        DeliverRefinesTable(before, e, id);
        if IsPartOf(e, id) {
          StoreCollects(Lookup(before, id), e, id, parts, Seen(most, id), start);
        }
      }
    }
  }

  /** In whatever order the parts come, with whatever repeats and neighbours, every part
      but the last missing one yields nothing and that one yields the whole message. */
  lemma OrderIndependent(slots: seq<Slot>, run: seq<Event>, id: MsgId, parts: seq<seq<Byte>>, ids: set<MsgId>, start: nat, k: nat)
    requires WellFormed(slots) && Lookup(slots, id) == Free && |parts| > 1
    requires Delivers(run, id, parts, ids, start)
    requires PendingIds(slots) <= ids && id in ids && |ids| <= 16
    requires k < |run| && IsPartOf(run[k], id)
    requires !Covers(Seen(run[..k], id), parts)
    ensures Yield(slots, run, k) ==
            if Covers(Seen(run[..k + 1], id), parts) then Some(Concat(parts)) else None
    ensures Covers(Seen(run[..k + 1], id), parts) ==>
              Lookup(After(slots, run[..k + 1]), id) == Free
  {
    RunCollects(slots, run[..k], id, parts, ids, start);
    assert run[..k + 1][..k] == run[..k];
    SeenSnoc(run[..k + 1], id);
    var before := After(slots, run[..k]);
    FewIdsHaveRoom(before, id, ids);
    DeliverRefinesTable(before, run[k], id);
    StoreCollects(Lookup(before, id), run[k], id, parts, Seen(run[..k], id), start);
  }

  // ----- the ring of recent event ids

  const RECENT := 20

  function Recent(log: seq<MsgId>): seq<MsgId> {
    if |log| <= RECENT then log else log[|log| - RECENT..]
  }

  /** The ids accepted so far, given the next one: a recent id is refused. */
  function Accept(log: seq<MsgId>, id: MsgId): seq<MsgId> {
    if id in Recent(log) then log else log + [id]
  }

  function AcceptAll(log: seq<MsgId>, ids: seq<MsgId>): seq<MsgId>
    decreases |ids|
  {
    if ids == [] then log else AcceptAll(Accept(log, ids[0]), ids[1..])
  }

  predicate SpacedOut(log: seq<MsgId>) {
    forall i, j | 0 <= i < j < |log| && j - i <= 20 :: log[i] != log[j]
  }

  /** Over any stream of events, an id is let through at most once in any twenty-one. */
  lemma {:induction false} AcceptedAreSpacedOut(log: seq<MsgId>, ids: seq<MsgId>)
    requires SpacedOut(log)
    ensures SpacedOut(AcceptAll(log, ids))
    decreases |ids|
  {
    if ids != [] {
      var next := Accept(log, ids[0]);
      if next != log {
        var k := if |log| <= RECENT then 0 else |log| - RECENT;
        assert forall i | k <= i < |log| :: Recent(log)[i - k] == log[i];
      }
      AcceptedAreSpacedOut(next, ids[1..]);
    }
  }

  predicate RingHolds(cells: seq<Option<MsgId>>, log: seq<MsgId>) {
    && |cells| == RECENT
    && (forall j | 0 <= j < |log| && |log| - RECENT <= j :: cells[j % RECENT] == Some(log[j]))
    && (forall j | |log| <= j < RECENT :: cells[j] == None)
  }

  lemma OtherCell(j: nat, n: nat)
    requires n - RECENT < j < n
    ensures j % RECENT != n % RECENT
  {
  }

  lemma RingPush(cells: seq<Option<MsgId>>, log: seq<MsgId>, id: MsgId)
    requires RingHolds(cells, log)
    ensures RingHolds(cells[|log| % RECENT := Some(id)], log + [id])
    ensures (|log| % RECENT + 1) % RECENT == (|log| + 1) % RECENT
  {
    forall j | 0 <= j < |log| && |log| - RECENT < j ensures j % RECENT != |log| % RECENT {
      OtherCell(j, |log|);
    }
  }

  lemma NewestInCell(k: nat, n: nat) returns (j: nat)
    requires k < RECENT && k < n
    ensures j % RECENT == k && n - RECENT <= j < n
  {
    var q := (n - 1 - k) / RECENT;
    j := k + RECENT * q;
  }

  lemma RecentAt(log: seq<MsgId>, id: MsgId) returns (j: nat)
    requires id in Recent(log)
    ensures j < |log| && |log| - RECENT <= j && log[j] == id
  {
    var first: nat := if |log| <= RECENT then 0 else |log| - RECENT;
    var k :| 0 <= k < |Recent(log)| && Recent(log)[k] == id;
    j := first + k;
  }

  lemma RecentIsHeld(cells: seq<Option<MsgId>>, log: seq<MsgId>, id: MsgId)
    requires RingHolds(cells, log) && id in Recent(log)
    ensures Some(id) in cells
  {
    hide Recent;
    var j := RecentAt(log, id);
    assert cells[j % RECENT] == Some(log[j]);
  }

  lemma HeldIsRecent(cells: seq<Option<MsgId>>, log: seq<MsgId>, k: nat)
    requires RingHolds(cells, log) && k < RECENT && cells[k].Some?
    ensures cells[k].value in Recent(log)
  {
    assert k < |log|;
    var j := NewestInCell(k, |log|);
    var first: nat := if |log| <= RECENT then 0 else |log| - RECENT;
    assert cells[k] == Some(log[j]);
    assert Recent(log)[j - first] == log[j];
  }

  /** The ring's cells are exactly the recent ids. */
  lemma RingContents(cells: seq<Option<MsgId>>, log: seq<MsgId>, id: MsgId)
    requires RingHolds(cells, log)
    ensures Some(id) in cells <==> id in Recent(log)
  {
    assert |cells| == RECENT;
    hide RingHolds, Recent;
    if id in Recent(log) {
      RecentIsHeld(cells, log, id);
    }
    if Some(id) in cells {
      var k :| 0 <= k < |cells| && cells[k] == Some(id);
      HeldIsRecent(cells, log, k);
    }
  }

  /** An event is refused exactly when its id is among the last twenty let through. */
  lemma AcceptedExact(log: seq<MsgId>, id: MsgId)
    ensures id in Recent(log) <==> exists j :: 0 <= j < |log| && |log| - 20 <= j && log[j] == id
    ensures Accept(log, id) ==
            if exists j :: 0 <= j < |log| && |log| - 20 <= j && log[j] == id then log else log + [id]
  {
    if id in Recent(log) {
      var j := RecentAt(log, id);
    }
    var first: nat := if |log| <= RECENT then 0 else |log| - RECENT;
    forall j | 0 <= j < |log| && |log| - 20 <= j && log[j] == id ensures id in Recent(log) {
      assert Recent(log)[j - first] == log[j];
    }
  }

  class EventRing {
    var recent: array<Option<MsgId>>
    var index: nat
    ghost var log: seq<MsgId>

    ghost predicate Ready()
      reads this, recent
    {
      RingHolds(recent[..], log) && index == |log| % RECENT
    }

    constructor ()
      ensures Ready() && fresh(recent) && log == []
    {
      recent := new Option<MsgId>[RECENT](_ => None);
      index, log := 0, [];
    }

    method IsDuplicate(id: MsgId) returns (dup: bool)
      requires Ready()
      modifies this, recent
      ensures Ready() && recent == old(recent)
      ensures dup == (id in Recent(old(log)))
      ensures dup <==> exists j :: 0 <= j < |old(log)| && |old(log)| - 20 <= j && old(log)[j] == id
      ensures log == Accept(old(log), id)
    {
      RingContents(recent[..], log, id);
      AcceptedExact(log, id);
      var k := 0;
      while k < RECENT
        invariant k <= RECENT
        invariant forall j | 0 <= j < k :: recent[j] != Some(id)
      {
        if recent[k] == Some(id) {
          assert recent[..][k] == Some(id);
          return true;
        }
        k := k + 1;
      }
      RingPush(recent[..], log, id);
      ghost var before := recent[..];
      recent[index] := Some(id);
      assert recent[..] == before[index := Some(id)];
      index := (index + 1) % RECENT;
      log := log + [id];
      return false;
    }
  }

  // ----- one delivery, field by field

  /** Parts are put together in order, each whole. */
  lemma {:induction false} ConcatParts(a: seq<seq<Byte>>, b: seq<seq<Byte>>, part: seq<Byte>)
    ensures Concat([]) == [] && Concat([part]) == part
    ensures Concat(a + b) == Concat(a) + Concat(b)
  {
    assert [part][..0] == [] && [] + part == part;
    if b == [] {
      assert a + b == a;
    } else {
      var most, last := b[..|b| - 1], b[|b| - 1];
      ConcatParts(a, most, part);
      assert (a + b)[..|a + b| - 1] == a + most;
      assert Concat(a) + Concat(most) + last == Concat(a) + (Concat(most) + last);
    }
  }

  /** A first part, or one that names another count, starts its message over at that time. */
  lemma FirstPart(s: Slot, now: nat, id: MsgId, sum: nat, seqNo: nat, data: seq<Byte>)
    requires 1 < sum && seqNo < sum && (s.Pending? ==> s.msgId != id || s.sum != sum)
    ensures var (t, r) := Store(s, now, id, sum, seqNo, data);
            && r == None && t.Pending? && t.msgId == id && t.sum == sum == |t.parts| && t.createdMs == now
            && forall k | 0 <= k < sum :: t.parts[k] == if k == seqNo then Some(data) else None
  {
    var parts := Fresh(id, sum, now).parts[seqNo := Some(data)];
    assert parts[if seqNo == 0 then 1 else 0].None?;
  }

  /** A further part joins the others and leaves the time alone; the last one missing frees the
      slot and yields the parts in order. */
  lemma FurtherPart(s: Slot, now: nat, id: MsgId, sum: nat, seqNo: nat, data: seq<Byte>)
    requires s.Pending? && s.msgId == id && s.sum == sum == |s.parts| && seqNo < sum
    ensures var (t, r) := Store(s, now, id, sum, seqNo, data);
            if forall k | 0 <= k < sum && k != seqNo :: s.parts[k].Some? then
              t == Free && r == Some(Concat(seq(sum, k requires 0 <= k < sum =>
                if k == seqNo || s.parts[k].None? then data else s.parts[k].value)))
            else
              t == Pending(id, sum, s.parts[seqNo := Some(data)], s.createdMs) && r == None
  {
    var parts := s.parts[seqNo := Some(data)];
    if forall k | 0 <= k < sum && k != seqNo :: s.parts[k].Some? {
      assert Values(parts) == seq(sum, k requires 0 <= k < sum =>
        if k == seqNo || s.parts[k].None? then data else s.parts[k].value);
    } else {
      var k :| 0 <= k < sum && k != seqNo && s.parts[k].None?;
      assert parts[k].None?;
    }
  }

  /** Parts without an id, of messages of one part, or outside the count do nothing. */
  lemma RefusedPart(slots: seq<Slot>, now: nat, id: Option<MsgId>, sum: int, seqNo: int, data: seq<Byte>)
    requires |slots| == 16 && (id == None || sum <= 1 || seqNo < 0 || seqNo >= sum)
    ensures Step(slots, Deliver(now, id, sum, seqNo, data)) == (slots, None)
  {
  }

  /** The slot of a part: its own, else the lowest free one, else the first of the sixteen. */
  lemma PickExact(slots: seq<Slot>, id: MsgId)
    requires |slots| == 16
    ensures var i := Pick(slots, id);
            if exists k :: 0 <= k < 16 && slots[k].Pending? && slots[k].msgId == id then
              slots[i].Pending? && slots[i].msgId == id
            else if exists k :: 0 <= k < 16 && slots[k] == Free then
              slots[i] == Free && forall k | 0 <= k < i :: slots[k] != Free
            else i == 0
  {
    var own := FirstHolding(slots, id);
    assert forall k | 0 <= k < 16 && slots[k].Pending? && slots[k].msgId == id :: Holds(slots[k], id);
  }

  /** Cleaning up frees exactly the slots more than 5000 milliseconds old. */
  lemma CleanedExact(slots: seq<Slot>, now: nat)
    requires |slots| == 16
    ensures var (after, r) := Step(slots, Cleanup(now));
            && r == None && |after| == 16
            && forall i | 0 <= i < 16 ::
                 after[i] == if slots[i].Pending? && now > slots[i].createdMs + 5000 then Free else slots[i]
  {
  }
}
