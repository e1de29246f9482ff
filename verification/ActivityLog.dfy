/** internal/state/activity_log.go: a fixed ring of the latest activity records. It behaves as the
    tail of an unbounded list that appends go to. */
module ActivityLog {
  import opened Common

  const SIZE := 50

  datatype Record = Record(id: string, body: string)

  /** Where the newest entry with this id stands, if any. */
  function Newest(s: seq<Record>, id: string): (r: Option<nat>)
    ensures r.None? <==> forall k :: 0 <= k < |s| ==> s[k].id != id
    ensures r.Some? ==> r.value < |s| && s[r.value].id == id && forall k :: r.value < k < |s| ==> s[k].id != id
  {
    if s == [] then None
    else if s[|s| - 1].id == id then Some(|s| - 1)
    else Newest(s[..|s| - 1], id)
  }

  function Updated(s: seq<Record>, id: string, fn: Record -> Record): seq<Record> {
    match Newest(s, id)
    case None => s
    case Some(k) => s[k := fn(s[k])]
  }

  function Reversed(s: seq<Record>): (r: seq<Record>)
    ensures |r| == |s| && forall k :: 0 <= k < |s| ==> r[k] == s[|s| - 1 - k]
  {
    if s == [] then [] else [s[|s| - 1]] + Reversed(s[..|s| - 1])
  }

  // ------------------------------------------------------------ the log the ring is the tail of

  datatype Op = Appending(r: Record) | Updating(id: string, fn: Record -> Record)

  function Min(a: nat, b: nat): nat { if a <= b then a else b }

  /** An unbounded log of which only the last records can still be updated. */
  function Logged(log: seq<Record>, op: Op): seq<Record> {
    match op
    case Appending(r) => log + [r]
    case Updating(id, fn) => var from := |log| - Min(|log|, SIZE); log[..from] + Updated(log[from..], id, fn)
  }

  function LogOf(ops: seq<Op>): seq<Record> {
    if ops == [] then [] else Logged(LogOf(ops[..|ops| - 1]), ops[|ops| - 1])
  }

  /** How many entries a request for `limit` gets. */
  function Granted(limit: int, held: nat): nat { if limit <= 0 || limit > held then held else limit }

  /** The slot of the i-th newest entry. */
  function Slot(head: nat, i: nat): (k: nat)
    requires head < SIZE && i < SIZE
    ensures k == if i < head then head - 1 - i else head + SIZE - 1 - i
  {
    (head - 1 - i + SIZE) % SIZE
  }

  function Following(head: nat): (k: nat)
    requires head < SIZE
    ensures k == if head == SIZE - 1 then 0 else head + 1
  {
    (head + 1) % SIZE
  }

  class Ring {
    const buf: array<Record>
    var head: nat
    var count: nat
    ghost var lost: seq<Record>  // appended and evicted since, oldest first
    ghost var held: seq<Record>  // still in the ring, oldest first

    ghost predicate Valid()
      reads this, buf
    {
      && buf.Length == SIZE && head < SIZE && count == |held| <= SIZE && (|held| < SIZE ==> lost == [])
      && forall i :: 0 <= i < count ==> buf[Slot(head, i)] == held[count - 1 - i]
    }

    /** Every record ever appended, oldest first, with the updates it saw. */
    ghost function Log(): seq<Record>
      reads this
    {
      lost + held
    }

    constructor (blank: Record)
      ensures Valid() && Log() == [] && fresh(buf)
    {
      buf := new Record[SIZE](_ => blank);
      head, count, lost, held := 0, 0, [], [];
    }

    method Append(r: Record)
      requires Valid()
      modifies this, buf
      ensures Valid() && Log() == Logged(old(Log()), Appending(r))
    {
      buf[head] := r;
      head := Following(head);
      if count < SIZE {
        count := count + 1;
      } else {
        assert held == [held[0]] + held[1..];
        lost, held := lost + [held[0]], held[1..];
      }
      held := held + [r];
      forall i | 0 <= i < count ensures buf[Slot(head, i)] == held[count - 1 - i] {
        if i > 0 {
          assert Slot(head, i) == Slot(old(head), i - 1);
          assert old(buf[Slot(head, i - 1)] == held[count - i]);
        } else {
          assert Slot(head, 0) == old(head);
        }
      }
    }

    /** The newest record with this id, if one is held, goes through fn. */
    method Update(id: string, fn: Record -> Record)
      requires Valid()
      modifies buf, this`held
      ensures Valid() && held == Updated(old(held), id, fn)
    {
      for i := 0 to count
        invariant forall k :: count - i <= k < count ==> held[k].id != id
      {
        var idx := Slot(head, i);
        if buf[idx].id == id {
          NewestAt(held, id, count - 1 - i);
          buf[idx] := fn(buf[idx]);
          held := held[count - 1 - i := buf[idx]];
          return;
        }
      }
    }

    /** Up to limit records, newest first; all that are held when the limit is not positive. */
    method Recent(limit: int) returns (out: seq<Record>)
      requires Valid()
      ensures out == Reversed(Log())[..Granted(limit, Min(|Log()|, SIZE))]
    {
      RecentIsTheTail(lost, held, limit);
      var n := limit;
      if n <= 0 || n > count {
        n := count;
      }
      out := [];
      for i := 0 to n
        invariant |out| == i && forall k :: 0 <= k < i ==> out[k] == held[count - 1 - k]
      {
        out := out + [buf[Slot(head, i)]];
      }
    }
  }

  lemma {:induction false} NewestAt(s: seq<Record>, id: string, k: nat)
    requires k < |s| && s[k].id == id && forall j :: k < j < |s| ==> s[j].id != id
    ensures Newest(s, id) == Some(k)
  {
    var j := Newest(s, id).value;
    assert s[j].id == id;
  }

  lemma HeldIsTail(lost: seq<Record>, held: seq<Record>)
    requires |held| <= SIZE && (|held| < SIZE ==> lost == [])
    ensures |held| == Min(|lost + held|, SIZE)
    ensures (lost + held)[..|lost|] == lost && (lost + held)[|lost|..] == held
  {
  }

  lemma {:induction false} RecentIsTheTail(lost: seq<Record>, held: seq<Record>, limit: int)
    requires |held| <= SIZE && (|held| < SIZE ==> lost == [])
    ensures var all := lost + held;
            Reversed(held)[..Granted(limit, |held|)] == Reversed(all)[..Granted(limit, Min(|all|, SIZE))]
  {
    var all := lost + held;
    assert forall k :: 0 <= k < |held| ==> Reversed(all)[k] == all[|all| - 1 - k] == held[|held| - 1 - k];
  }

  ghost predicate IsNewest(s: seq<Record>, id: string, k: nat) {
    k < |s| && s[k].id == id && forall j: nat :: k < j < |s| ==> s[j].id != id
  }

  lemma UpdatedMeans(s: seq<Record>, id: string, fn: Record -> Record, k: nat)
    requires k < |s|
    ensures |Updated(s, id, fn)| == |s|
    ensures Updated(s, id, fn)[k] == if IsNewest(s, id, k) then fn(s[k]) else s[k]
  {
    if IsNewest(s, id, k) {
      NewestAt(s, id, k);
    }
  }

  lemma NewestOfTail(log: seq<Record>, id: string, from: nat, k: nat)
    requires from <= k < |log|
    ensures IsNewest(log[from..], id, k - from) <==> IsNewest(log, id, k)
  {
    var tail := log[from..];
    assert forall j: nat :: from <= j < |log| ==> tail[j - from] == log[j];
    if IsNewest(tail, id, k - from) {
      forall j: nat | k < j < |log| ensures log[j].id != id {
        assert tail[j - from] == log[j];
      }
    }
  }

  /** An update changes the newest of the last fifty records to carry the id, and no other. */
  lemma UpdateMeans(log: seq<Record>, id: string, fn: Record -> Record, k: nat)
    requires k < |log|
    ensures var next := Logged(log, Updating(id, fn));
            |next| == |log| && next[k] == if k >= |log| - 50 && IsNewest(log, id, k) then fn(log[k]) else log[k]
  {
    var from := |log| - Min(|log|, SIZE);
    if k >= from {
      UpdatedMeans(log[from..], id, fn, k - from);
      NewestOfTail(log, id, from, k);
    } else {
      UpdatedMeans(log[from..], id, fn, 0);
    }
  }

  /** What a request is answered with, record by record. */
  lemma AnswerMeans(log: seq<Record>, limit: int)
    ensures var out := Reversed(log)[..Granted(limit, Min(|log|, SIZE))];
            var held := if |log| < 50 then |log| else 50;
            && |out| == (if 0 < limit < held then limit else held)
            && forall k :: 0 <= k < |out| ==> out[k] == log[|log| - 1 - k]
  {
  }

  method Perform(ring: Ring, op: Op)
    requires ring.Valid()
    modifies ring, ring.buf
    ensures ring.Valid() && ring.Log() == Logged(old(ring.Log()), op)
  {
    match op {
      case Appending(r) => ring.Append(r);
      case Updating(id, fn) =>
        HeldIsTail(ring.lost, ring.held);
        ring.Update(id, fn);
    }
  }

  /** Over any run of appends and updates on a new ring, a request is answered with the last
      records of the log those operations make, newest first. */
  method Serve(blank: Record, ops: seq<Op>, limit: int) returns (out: seq<Record>)
    ensures out == Reversed(LogOf(ops))[..Granted(limit, Min(|LogOf(ops)|, SIZE))]
  {
    var ring := new Ring(blank);
    for k := 0 to |ops|
      invariant fresh(ring) && fresh(ring.buf) && ring.Valid() && ring.Log() == LogOf(ops[..k])
    {
      assert ops[..k + 1][..k] == ops[..k];
      Perform(ring, ops[k]);
    }
    assert ops[..|ops|] == ops;
    out := ring.Recent(limit);
  }
}
