/** A queue of the message bus: a ring buffer that doubles when full and can be closed. */
module MessageBus {
  import opened Sequences
  import opened Wrappers

  const CAPACITY := 16

  // ----- the queue as a sequence with its history

  /** `accepted` and `received` are what the queue took in and gave out so far; `refused` are the
      messages freed because they came after the close. */
  datatype Queue<T> = Queue(contents: seq<T>, closed: bool, accepted: seq<T>, received: seq<T>, refused: seq<T>)

  datatype Op<T> = Send(message: T) | Receive | Close

  /** A receive gives out a message only when there is one; otherwise it changes nothing. */
  function Apply<T>(q: Queue<T>, op: Op<T>): Queue<T> {
    match op
    case Send(m) =>
      if q.closed then q.(refused := q.refused + [m])
      else q.(contents := q.contents + [m], accepted := q.accepted + [m])
    case Receive =>
      if q.contents == [] then q
      else q.(contents := q.contents[1..], received := q.received + [q.contents[0]])
    case Close => q.(closed := true)
  }

  function ApplyAll<T>(q: Queue<T>, ops: seq<Op<T>>): Queue<T>
    decreases |ops|
  {
    if ops == [] then q else ApplyAll(Apply(q, ops[0]), ops[1..])
  }

  function Empty<T>(): Queue<T> {
    Queue([], false, [], [], [])
  }

  /** The messages sent by some operations. */
  function Sent<T>(ops: seq<Op<T>>): seq<T> {
    if ops == [] then []
    else (if ops[0].Send? then [ops[0].message] else []) + Sent(ops[1..])
  }

  /** The operations before the first close. */
  function BeforeClose<T>(ops: seq<Op<T>>): (r: seq<Op<T>>)
    ensures r <= ops && (forall i | 0 <= i < |r| :: !r[i].Close?) && (|r| < |ops| ==> ops[|r|].Close?)
  {
    if ops == [] || ops[0].Close? then [] else [ops[0]] + BeforeClose(ops[1..])
  }

  lemma ApplyConserves<T>(q: Queue<T>, op: Op<T>)
    requires q.accepted == q.received + q.contents
    ensures var r := Apply(q, op); r.accepted == r.received + r.contents
  {
    match op {
      case Send(m) => Reassociate(q.received, q.contents, [m]);
      case Receive =>
        if q.contents != [] {
          assert q.contents == [q.contents[0]] + q.contents[1..];
          Reassociate(q.received, [q.contents[0]], q.contents[1..]);
        }
      case Close =>
    }
  }

  lemma {:induction false} ClosedTakesNothing<T>(q: Queue<T>, ops: seq<Op<T>>)
    requires q.closed
    ensures ApplyAll(q, ops).accepted == q.accepted && ApplyAll(q, ops).closed
    ensures ApplyAll(q, ops).refused == q.refused + Sent(ops)
    decreases |ops|
  {
    if ops == [] {
      assert q.refused + [] == q.refused;
    } else {
      ClosedTakesNothing(Apply(q, ops[0]), ops[1..]);
      Reassociate(q.refused, if ops[0].Send? then [ops[0].message] else [], Sent(ops[1..]));
      assert q.refused + [] == q.refused;
    }
  }

  /** Over any run: what was accepted is what was received followed by what is queued, in order;
      and it is exactly what was sent before the first close; what is sent later is refused. */
  lemma {:induction false} RunConserves<T>(q: Queue<T>, ops: seq<Op<T>>)
    requires !q.closed && q.accepted == q.received + q.contents
    ensures var r := ApplyAll(q, ops);
            && r.accepted == r.received + r.contents
            && r.accepted == q.accepted + Sent(BeforeClose(ops))
            && r.refused == q.refused + Sent(ops[|BeforeClose(ops)|..])
    decreases |ops|
  {
    if ops == [] {
      assert q.accepted + [] == q.accepted && q.refused + [] == q.refused;
    } else {
      var next := Apply(q, ops[0]);
      ApplyConserves(q, ops[0]);
      if ops[0].Close? {
        ClosedTakesNothing(next, ops[1..]);
        ClosedConserves(next, ops[1..]);
        assert q.accepted + [] == q.accepted && ops[0..] == ops && [] + Sent(ops[1..]) == Sent(ops[1..]);
      } else {
        RunConserves(next, ops[1..]);
        BeforeCloseSteps(ops);
        hide ApplyAll, Sent, BeforeClose;
        var own, rest := if ops[0].Send? then [ops[0].message] else [], Sent(BeforeClose(ops[1..]));
        Reassociate(q.accepted, own, rest);
        assert q.accepted + [] == q.accepted;
        assert next.accepted == q.accepted + own;
      }
    }
  }

  lemma BeforeCloseSteps<T>(ops: seq<Op<T>>)
    requires ops != [] && !ops[0].Close?
    ensures Sent(BeforeClose(ops)) ==
            (if ops[0].Send? then [ops[0].message] else []) + Sent(BeforeClose(ops[1..]))
    ensures ops[|BeforeClose(ops)|..] == ops[1..][|BeforeClose(ops[1..])|..]
  {
    assert BeforeClose(ops)[1..] == BeforeClose(ops[1..]);
  }

  lemma {:induction false} ClosedConserves<T>(q: Queue<T>, ops: seq<Op<T>>)
    requires q.accepted == q.received + q.contents
    ensures var r := ApplyAll(q, ops); r.accepted == r.received + r.contents
    decreases |ops|
  {
    if ops != [] {
      ApplyConserves(q, ops[0]);
      ClosedConserves(Apply(q, ops[0]), ops[1..]);
    }
  }

  function Receives<T>(n: nat): seq<Op<T>> {
    if n == 0 then [] else [Receive] + Receives(n - 1)
  }

  /** A closed queue still gives out everything it holds, in order, and then nothing. */
  lemma {:induction false} ReceivesDrain<T>(q: Queue<T>, n: nat)
    requires n >= |q.contents|
    ensures var r := ApplyAll(q, Receives(n));
            r.contents == [] && r.received == q.received + q.contents
    decreases n
  {
    if n == 0 {
      assert q.received + q.contents == q.received;
    } else {
      var rs := Receives<T>(n);
      assert rs[0] == Receive && rs[1..] == Receives(n - 1);
      ReceivesDrain(Apply(q, Receive), n - 1);
      if q.contents != [] {
        assert q.contents == [q.contents[0]] + q.contents[1..];
        Reassociate(q.received, [q.contents[0]], q.contents[1..]);
      }
      hide ApplyAll, Receives;
      assert ApplyAll(q, rs) == ApplyAll(Apply(q, Receive), rs[1..]) by {
        OneThenRest(q, rs);
      }
    }
  }

  lemma OneThenRest<T>(q: Queue<T>, ops: seq<Op<T>>)
    requires ops != []
    ensures ApplyAll(q, ops) == ApplyAll(Apply(q, ops[0]), ops[1..])
  {
  }

  // ----- the ring

  /** How far `to` lies ahead of `from` in a ring. */
  function Ahead(from: nat, to: nat, capacity: nat): nat
    requires from < capacity && to < capacity
  {
    if from <= to then to - from else capacity - from + to
  }

  /** The slots of a ring from `from` up to `to`. */
  function Slice<T>(items: seq<T>, from: nat, to: nat): (r: seq<T>)
    requires from < |items| && to < |items|
    ensures |r| == Ahead(from, to, |items|)
  {
    if from <= to then items[from..to] else items[from..] + items[..to]
  }

  function After(i: nat, capacity: nat): nat
    requires i < capacity
  {
    (i + 1) % capacity
  }

  lemma AfterIs(i: nat, capacity: nat)
    requires i < capacity
    ensures After(i, capacity) == if i + 1 < capacity then i + 1 else 0
  {
  }

  lemma ReceiveGives<T>(q: Queue<T>, m: T, rest: seq<T>)
    requires q.contents == [m] + rest && q.accepted == q.received + q.contents
    ensures Apply(q, Receive) == Queue(rest, q.closed, q.accepted, q.received + [m], q.refused)
    ensures q.accepted == q.received + [m] + rest && q.contents != [] && q.contents[0] == m
  {
    Reassociate(q.received, [m], rest);
    assert q.contents[1..] == rest;
  }

  lemma PrefixPut<T>(s: seq<T>, j: nat, m: T)
    requires j < |s|
    ensures s[j := m][..j + 1] == s[..j] + [m]
  {
  }

  lemma SliceFromStart<T>(items: seq<T>, to: nat)
    requires to < |items|
    ensures Slice(items, 0, to) == items[..to]
  {
  }

  lemma SliceEnds<T>(items: seq<T>, to: nat)
    requires to < |items|
    ensures Slice(items, to, to) == []
  {
  }

  lemma SliceFirst<T>(items: seq<T>, from: nat, to: nat)
    requires from < |items| && to < |items| && from != to
    ensures Slice(items, from, to) == [items[from]] + Slice(items, After(from, |items|), to)
  {
    AfterIs(from, |items|);
  }

  lemma SliceLast<T>(items: seq<T>, from: nat, to: nat, m: T)
    requires from < |items| && to < |items| && After(to, |items|) != from
    ensures Slice(items[to := m], from, After(to, |items|)) == Slice(items, from, to) + [m]
  {
    AfterIs(to, |items|);
  }

  class MessageQueue<T(0)> {
    var items: array<T>
    var front: nat
    var rear: nat
    var closed: bool
    ghost var contents: seq<T>
    ghost var accepted: seq<T>
    ghost var received: seq<T>
    ghost var refused: seq<T>

    /** One slot stays free, so that equal indices mean empty. */
    ghost predicate Valid()
      reads this, items
    {
      && items.Length >= 2 && front < items.Length && rear < items.Length
      && contents == Slice(items[..], front, rear) && accepted == received + contents
    }

    ghost function View(): Queue<T>
      reads this
    {
      Queue(contents, closed, accepted, received, refused)
    }

    constructor ()
      ensures Valid() && View() == Empty() && fresh(items) && items.Length == 16
    {
      items := new T[CAPACITY];
      front, rear, closed := 0, 0, false;
      contents, accepted, received, refused := [], [], [], [];
    }

    /** Doubles the ring; the walk from front to rear copies the contents to its start. */
    method Grow()
      requires Valid() && After(rear, items.Length) == front
      modifies this`items, this`front, this`rear
      ensures Valid() && fresh(items) && View() == old(View())
      ensures After(rear, items.Length) != front && items.Length == 2 * old(items.Length)
    {
      var larger := new T[items.Length * 2];
      var j: nat := 0;
      var i: nat := front;
      hide Slice, After;
      while i != rear
        invariant i < items.Length && j + Ahead(i, rear, items.Length) == |contents|
        invariant larger[..][..j] + Slice(items[..], i, rear) == contents
        decreases Ahead(i, rear, items.Length)
        modifies larger
      {
        SliceFirst(items[..], i, rear);
        AfterIs(i, items.Length);
        ghost var rest := Slice(items[..], After(i, items.Length), rear);
        ghost var was := larger[..];
        Reassociate(was[..j], [items[i]], rest);
        PrefixPut(was, j, items[i]);
        larger[j] := items[i];
        assert larger[..] == was[j := items[i]];
        j := j + 1;
        i := (i + 1) % items.Length;
      }
      SliceEnds(items[..], rear);
      SliceFromStart(larger[..], j);
      AfterIs(j, larger.Length);
      assert larger[..][..j] + [] == larger[..][..j];
      items, front, rear := larger, 0, j;
    }

    method Put(m: T)
      requires Valid() && !closed && After(rear, items.Length) != front
      modifies this`rear, this`contents, this`accepted, items
      ensures Valid() && View() == Apply(old(View()), Send(m))
    {
      SliceLast(items[..], front, rear, m);
      Reassociate(received, contents, [m]);
      hide Slice;
      ghost var was := items[..];
      items[rear] := m;
      assert items[..] == was[rear := m];
      rear := (rear + 1) % items.Length;
      contents, accepted := contents + [m], accepted + [m];
    }

    method SendMessage(m: T) returns (ok: bool)
      requires Valid()
      modifies this, items
      ensures Valid() && (items == old(items) || fresh(items))
      ensures View() == Apply(old(View()), Send(m)) && ok == !old(closed)
      ensures contents == if old(closed) then old(contents) else old(contents) + [m]
    {
      hide Slice;
      if closed {
        refused := refused + [m];
        return false;
      }
      if (rear + 1) % items.Length == front {
        Grow();
      }
      Put(m);
      return true;
    }

    method TakeFront() returns (m: T)
      requires Valid() && front != rear
      modifies this`front, this`contents, this`received
      ensures Valid() && old(contents) != []
      ensures View() == Apply(old(View()), Receive) && m == old(contents)[0]
    {
      SliceFirst(items[..], front, rear);
      ghost var q, rest := View(), contents[1..];
      assert contents == [items[front]] + rest;
      ReceiveGives(q, items[front], rest);
      hide Slice, Apply;
      ghost var slots := items[..];
      m := items[front];
      received := received + [m];
      contents := rest;
      front := (front + 1) % items.Length;
      assert items[..] == slots;
    }

    /** A receive past its wait: something is queued, or the queue is closed. */
    method ReceiveMessage() returns (m: Option<T>)
      requires Valid() && (contents != [] || closed)
      modifies this`front, this`contents, this`received
      ensures Valid() && View() == Apply(old(View()), Receive)
      ensures m == if old(contents) == [] then None else Some(old(contents)[0])
    {
      if front == rear {
        return None;
      }
      var taken := TakeFront();
      m := Some(taken);
    }

    /** A timed receive gives up when the wait expires, or at once without a positive timeout; it
        then leaves the queue alone even if a message has just come in. */
    method ReceiveTimed(timeout: int, expired: bool) returns (m: Option<T>)
      requires Valid() && (timeout > 0 && !expired ==> contents != [] || closed)
      modifies this`front, this`contents, this`received
      ensures Valid()
      ensures timeout <= 0 || expired ==> m == None && View() == old(View())
      ensures timeout > 0 && !expired ==>
                && View() == Apply(old(View()), Receive)
                && m == if old(contents) == [] then None else Some(old(contents)[0])
    {
      if timeout <= 0 || expired {
        return None;
      }
      m := ReceiveMessage();
    }

    method CloseQueue()
      requires Valid()
      modifies this`closed
      ensures Valid() && View() == Apply(old(View()), Close)
    {
      closed := true;
    }

    /** What is still queued at the end is freed, front to rear. */
    method FreeRest() returns (freed: seq<T>)
      requires Valid()
      modifies this`front, this`contents, this`received
      ensures Valid() && freed == old(contents) && contents == []
    {
      freed := [];
      ghost var goal := contents;
      hide Slice;
      while front != rear
        invariant Valid() && freed + contents == goal
        decreases |contents|
      {
        ghost var left := contents;
        var m := TakeFront();
        assert left == [m] + left[1..];
        Reassociate(freed, [m], left[1..]);
        freed := freed + [m];
      }
    }
  }
}
