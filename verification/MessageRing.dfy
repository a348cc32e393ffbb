/** The messages a destination sends to a source, and the bounded ring `sMsg`
    in which the handlers leave them for the sending thread. */
module Messages {
  import opened Words

  /** An IPv4 address in host byte order. */
  type Ipv4 = Word

  /** The control messages. `Start` only announces new traffic. */
  datatype Message =
    | Start(src: Ipv4, dst: Ipv4)
    | Qinfo(value: Word, hopDelay: Word, src: Ipv4, dst: Ipv4)
    | Reset(src: Ipv4, dst: Ipv4)
    | Cleanup(src: Ipv4)
  {
    /** RESET and CLEANUP both answer an earlier QINFO. */
    predicate Answer() {
      Reset? || Cleanup?
    }

    /** Everything but `Start` acts on the pacing of the source. */
    predicate Control() {
      !Start?
    }
  }
}

module MessageRing {

  /** SMSGS_BUFFER_SIZE; one slot always stays unused. */
  const SLOTS := 20
  const CAPACITY := SLOTS - 1

  /** A snapshot of the ring: slots, `sMsgsIn` and `sMsgsOut`. */
  datatype Ring<T> = Ring(slots: seq<T>, next: nat, first: nat)

  predicate Valid<T>(r: Ring<T>) {
    |r.slots| == SLOTS && r.next < SLOTS && r.first < SLOTS
  }

  /** The index after `i`, wrapping around. */
  function After(i: nat): (j: nat)
    requires i < SLOTS
    ensures j == if i + 1 == SLOTS then 0 else i + 1
  {
    (i + 1) % SLOTS
  }

  predicate Full<T>(r: Ring<T>)
    requires Valid(r)
  {
    After(r.next) == r.first
  }

  predicate Empty<T>(r: Ring<T>) {
    r.next == r.first
  }

  function Count<T>(r: Ring<T>): (n: nat)
    requires Valid(r)
  {
    if r.first <= r.next then r.next - r.first else r.next + SLOTS - r.first
  }

  /** The unread messages, oldest first. */
  function Contents<T>(r: Ring<T>): (s: seq<T>)
    requires Valid(r)
  {
    if r.first <= r.next then r.slots[r.first..r.next] else r.slots[r.first..] + r.slots[..r.next]
  }

  function Put<T>(r: Ring<T>, m: T): (r': Ring<T>)
    requires Valid(r)
  {
    r.(slots := r.slots[r.next := m], next := After(r.next))
  }

  function Take<T>(r: Ring<T>): (r': Ring<T>)
    requires Valid(r)
  {
    r.(first := After(r.first))
  }

  /** The two index tests mean what their names say, and the ring never holds more than 19 messages. */
  lemma IndexTests<T>(r: Ring<T>)
    requires Valid(r)
    ensures |Contents(r)| == Count(r) <= CAPACITY == 19
    ensures Full(r) <==> |Contents(r)| == CAPACITY
    ensures Empty(r) <==> Contents(r) == []
  {
  }

  /** The ring refines a FIFO queue: a put appends, across wrap-around, and leaves every unread message alone. */
  lemma PutAppends<T>(r: Ring<T>, m: T)
    requires Valid(r) && !Full(r)
    ensures Valid(Put(r, m)) && Contents(Put(r, m)) == Contents(r) + [m]
  {
    hide After;
    var slots := r.slots[r.next := m];
    if r.first <= r.next {
      assert slots[r.first..r.next + 1] == r.slots[r.first..r.next] + [m];
    } else {
      assert slots[..r.next + 1] == r.slots[..r.next] + [m];
    }
  }

  /** Taking removes the oldest message, across wrap-around. */
  lemma TakeRemovesOldest<T>(r: Ring<T>)
    requires Valid(r) && !Empty(r)
    ensures Valid(Take(r)) && Contents(r) == [r.slots[r.first]] + Contents(Take(r))
  {
    hide After;
    if r.first < r.next {
      assert r.slots[r.first..r.next] == [r.slots[r.first]] + r.slots[r.first + 1..r.next];
    } else if r.first + 1 < SLOTS {
      assert r.slots[r.first..] + r.slots[..r.next]
          == [r.slots[r.first]] + (r.slots[r.first + 1..] + r.slots[..r.next]);
    } else {
      assert r.slots[r.first..] == [r.slots[r.first]] && r.slots[0..r.next] == r.slots[..r.next];
    }
  }

  /** The global array and its two indices. Each method is one critical
      section under `dtn_mutex`, after its wait loop has let the thread pass. */
  class Buffer<T(0)> {
    const slots: array<T>
    var next: nat
    var first: nat

    ghost function Snapshot(): (r: Ring<T>)
      reads this, slots
    {
      Ring(slots[..], next, first)
    }

    constructor ()
      ensures Valid(Snapshot()) && Contents(Snapshot()) == [] && fresh(slots)
    {
      slots := new T[SLOTS];
      next, first := 0, 0;
    }

    /** The producer's `while` condition; true sends it to sleep. */
    method MustWait() returns (wait: bool)
      requires Valid(Snapshot())
      ensures wait <==> |Contents(Snapshot())| == CAPACITY
    {
      wait := After(next) == first;
      IndexTests(Snapshot());
    }

    method Deposit(m: T)
      requires Valid(Snapshot()) && |Contents(Snapshot())| < CAPACITY
      modifies this`next, slots
      ensures Snapshot() == Put(old(Snapshot()), m)
      ensures Valid(Snapshot()) && Contents(Snapshot()) == old(Contents(Snapshot())) + [m]
    {
      IndexTests(Snapshot());
      PutAppends(Snapshot(), m);
      slots[next] := m;
      next := After(next);
    }

    method Remove() returns (m: T)
      requires Valid(Snapshot()) && Contents(Snapshot()) != []
      modifies this`first
      ensures Snapshot() == Take(old(Snapshot()))
      ensures Valid(Snapshot()) && old(Contents(Snapshot())) == [m] + Contents(Snapshot())
    {
      IndexTests(Snapshot());
      TakeRemovesOldest(Snapshot());
      m := slots[first];
      first := After(first);
    }
  }
}
