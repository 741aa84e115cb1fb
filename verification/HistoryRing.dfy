/** The cyclic motor history shared by one writer task and any number of HTTP tasks, as a state machine
    whose steps are single array stores, single array reads and single updates of the start index.
    n is the size of the window that readers copy and c the size of the cyclic arrays. */
module HistoryRing {
  import opened Division

  /** One sample: the desired position, the position, the PWM duty and the time stamp. */
  datatype Record = Record(desired: int, position: int, duty: int, stamp: int)

  const ZERO := Record(0, 0, 0, 0)
  const COLUMNS: nat := 4

  function Field(r: Record, k: nat): int
    requires k < COLUMNS
  {
    match k
    case 0 => r.desired
    case 1 => r.position
    case 2 => r.duty
    case _ => r.stamp
  }

  datatype Memory = Memory(desired: seq<int>, position: seq<int>, duty: seq<int>, stamp: seq<int>, start: nat)
  {
    predicate Sized(c: nat) {
      |desired| == c && |position| == c && |duty| == c && |stamp| == c
    }

    function Column(k: nat): seq<int>
      requires k < COLUMNS
    {
      match k
      case 0 => desired
      case 1 => position
      case 2 => duty
      case _ => stamp
    }

    function Store(k: nat, i: nat, v: int): (m: Memory)
      requires k < COLUMNS && i < |Column(k)|
      ensures m.start == start
      ensures forall j: nat | j < COLUMNS ::
                m.Column(j) == if j == k then Column(k)[i := v] else Column(j)
    {
      match k
      case 0 => this.(desired := desired[i := v])
      case 1 => this.(position := position[i := v])
      case 2 => this.(duty := duty[i := v])
      case _ => this.(stamp := stamp[i := v])
    }
  }

  // ---------------------------------------------------------------- the state machine

  /** The writer is between two samples, or has stored the first `stored` columns of `rec`. */
  datatype Writer = Idle | Storing(slot: nat, rec: Record, stored: nat)

  /** A task in the copying loop. `copied` and `partial` are the entries and the columns of the current
      entry read so far. since and marks are history variables: the number of samples published when
      the start index was read, and the number of samples begun when each entry was complete. */
  datatype Reader = Reader(s: nat, i: nat, copied: seq<Record>, partial: seq<int>, since: nat, marks: seq<nat>)

  /** begun and published are history variables: all samples whose storing has begun, and the number of
      those that the start index already covers. */
  datatype State = State(mem: Memory, writer: Writer, readers: map<nat, Reader>, begun: seq<Record>, published: nat)

  datatype Event =
    | Begin(rec: Record)   // the writer computes the slot for a new sample
    | Store                // the writer stores one column
    | Publish              // the writer advances the start index
    | Open(id: nat)        // an HTTP task reads the start index
    | Read(id: nat)        // it reads one column of the current entry
    | Advance(id: nat)     // it moves on to the next entry

  function Zeros(k: nat): seq<int> {
    seq(k, _ => 0)
  }

  function Init(c: nat): State {
    State(Memory(Zeros(c), Zeros(c), Zeros(c), Zeros(c), 0), Idle, map[], [], 0)
  }

  predicate InBounds(c: nat, s: State) {
    && s.mem.Sized(c) && s.mem.start < c
    && (s.writer.Storing? ==> s.writer.slot < c)
    && (forall id | id in s.readers :: s.readers[id].i < c && |s.readers[id].partial| <= COLUMNS)
  }

  predicate Enabled(n: nat, c: nat, s: State, e: Event)
    requires c > 0
  {
    match e
    case Begin(_) => s.writer.Idle?
    case Store => s.writer.Storing? && s.writer.stored < COLUMNS
    case Publish => s.writer.Storing? && s.writer.stored == COLUMNS
    case Open(id) => id !in s.readers
    case Read(id) =>
      && id in s.readers
      && s.readers[id].i != (s.readers[id].s + n) % c
      && |s.readers[id].partial| < COLUMNS
    case Advance(id) => id in s.readers && |s.readers[id].partial| == COLUMNS
  }

  function Apply(n: nat, c: nat, s: State, e: Event): State
    requires c > 0 && InBounds(c, s) && Enabled(n, c, s, e)
  {
    match e
    case Begin(rec) =>
      s.(writer := Storing((s.mem.start + n) % c, rec, 0), begun := s.begun + [rec])
    case Store =>
      var w := s.writer;
      s.(mem := s.mem.Store(w.stored, w.slot, Field(w.rec, w.stored)), writer := w.(stored := w.stored + 1))
    case Publish =>
      s.(mem := s.mem.(start := (s.mem.start + 1) % c), writer := Idle, published := s.published + 1)
    case Open(id) =>
      s.(readers := s.readers[id := Reader(s.mem.start, s.mem.start, [], [], s.published, [])])
    case Read(id) =>
      var r := s.readers[id];
      s.(readers := s.readers[id := r.(partial := r.partial + [s.mem.Column(|r.partial|)[r.i]])])
    case Advance(id) =>
      var r := s.readers[id];
      var entry := Record(r.partial[0], r.partial[1], r.partial[2], r.partial[3]);
      s.(readers := s.readers[id := r.(i := (r.i + 1) % c, copied := r.copied + [entry], partial := [],
                                       marks := r.marks + [|s.begun|])])
  }

  // ---------------------------------------------------------------- the invariant

  /** The slot of the m-th record of the endless log, m mod c. */
  ghost function Slot(m: nat, c: nat): (p: nat)
    requires c > 0
    ensures p < c
  {
    if m == 0 then 0
    else
      var p := Slot(m - 1, c);
      if p + 1 == c then 0 else p + 1
  }

  lemma {:induction false} SlotIsModular(m: nat, c: nat)
    requires c > 0
    ensures Slot(m, c) == m % c
  {
    if m == 0 {
      ModUnique(0, 0, 0, c);
    } else {
      SlotIsModular(m - 1, c);
      ModSucc(m - 1, c);
    }
  }

  lemma SlotPlus(m: nat, k: nat, c: nat)
    requires c > 0 && k <= c
    ensures (Slot(m, c) + k) % c == Slot(m + k, c)
  {
    SlotIsModular(m, c);
    SlotIsModular(m + k, c);
    ModAdd(m, k, c);
  }

  lemma SlotsDiffer(a: nat, b: nat, c: nat)
    requires a < b < a + c
    ensures Slot(a, c) != Slot(b, c)
  {
    SlotIsModular(a, c);
    SlotIsModular(b, c);
    ModAdd(a, b - a, c);
  }

  /** The m-th record of the endless log: n zero records followed by all samples. */
  ghost function LogAt(n: nat, begun: seq<Record>, m: nat): Record
    requires m < n + |begun|
  {
    if m < n then ZERO else begun[m - n]
  }

  /** Column k holds the last c of the first `upto` records of the log. */
  ghost predicate ColumnHolds(n: nat, c: nat, col: seq<int>, k: nat, begun: seq<Record>, upto: nat)
    requires k < COLUMNS && c > 0
  {
    && |col| == c
    && upto <= n + |begun|
    && forall m: nat | m < upto <= m + c :: col[Slot(m, c)] == Field(LogAt(n, begun, m), k)
  }

  /** The number of log records whose column k has been stored. */
  ghost function StoredUpTo(n: nat, s: State, k: nat): nat {
    n + s.published + if s.writer.Storing? && k < s.writer.stored then 1 else 0
  }

  ghost predicate WriterOk(n: nat, c: nat, s: State)
    requires c > 0
  {
    && s.mem.start == Slot(s.published, c)
    && (s.writer.Idle? ==> |s.begun| == s.published)
    && (s.writer.Storing? ==>
          && |s.begun| == s.published + 1
          && s.writer.rec == s.begun[s.published]
          && s.writer.slot == Slot(n + s.published, c)
          && s.writer.stored <= COLUMNS)
    && (forall k: nat | k < COLUMNS ::
          ColumnHolds(n, c, s.mem.Column(k), k, s.begun, StoredUpTo(n, s, k)))
  }

  /** Copied entries are those of the window that was current when the reader read the start index,
      except entries that were read after too many samples had begun. */
  ghost predicate ReaderOk(n: nat, c: nat, r: Reader, begun: seq<Record>, published: nat)
    requires 0 < n < c
  {
    && r.since <= published <= |begun|
    && |r.marks| == |r.copied| <= n
    && |r.partial| <= COLUMNS
    && (|r.partial| > 0 ==> |r.copied| < n)
    && (forall k, l | 0 <= k < l < |r.marks| :: r.marks[k] <= r.marks[l])
    && r.s == Slot(r.since, c)
    && r.i == Slot(r.since + |r.copied|, c)
    && (forall k | 0 <= k < |r.copied| ::
          && r.since <= r.marks[k] <= |begun|
          && (r.marks[k] <= r.since + (c - n) + k ==> r.copied[k] == LogAt(n, begun, r.since + k)))
    && (|begun| <= r.since + (c - n) + |r.copied| ==>
          forall j | 0 <= j < |r.partial| :: r.partial[j] == Field(LogAt(n, begun, r.since + |r.copied|), j))
  }

  ghost predicate Inv(n: nat, c: nat, s: State)
    requires 0 < n < c
  {
    && WriterOk(n, c, s)
    && forall id | id in s.readers :: ReaderOk(n, c, s.readers[id], s.begun, s.published)
  }

  lemma InitKeeps(n: nat, c: nat)
    requires 0 < n < c
    ensures Inv(n, c, Init(c))
  {
  }

  lemma InvInBounds(n: nat, c: nat, s: State)
    requires 0 < n < c && Inv(n, c, s)
    ensures InBounds(c, s)
  {
    assert |s.mem.Column(0)| == |s.mem.Column(1)| == |s.mem.Column(2)| == |s.mem.Column(3)| == c;
  }

  lemma BeginKeeps(n: nat, c: nat, s: State, rec: Record)
    requires 0 < n < c && Inv(n, c, s) && s.writer.Idle? && InBounds(c, s)
    ensures Inv(n, c, Apply(n, c, s, Begin(rec)))
  {
    var t := Apply(n, c, s, Begin(rec));
    SlotPlus(s.published, n, c);
    forall k: nat | k < COLUMNS
      ensures ColumnHolds(n, c, t.mem.Column(k), k, t.begun, StoredUpTo(n, t, k))
    {
      assert ColumnHolds(n, c, s.mem.Column(k), k, s.begun, StoredUpTo(n, s, k));
    }
  }

  lemma StoreKeeps(n: nat, c: nat, s: State)
    requires 0 < n < c && Inv(n, c, s) && Enabled(n, c, s, Store) && InBounds(c, s)
    ensures Inv(n, c, Apply(n, c, s, Store))
  {
    var t := Apply(n, c, s, Store);
    forall k: nat | k < COLUMNS
      ensures ColumnHolds(n, c, t.mem.Column(k), k, t.begun, StoredUpTo(n, t, k))
    {
      assert ColumnHolds(n, c, s.mem.Column(k), k, s.begun, StoredUpTo(n, s, k));
      if k == s.writer.stored {
        var last := n + s.published;
        forall m: nat | m < last + 1 <= m + c
          ensures t.mem.Column(k)[Slot(m, c)] == Field(LogAt(n, t.begun, m), k)
        {
          if m < last {
            SlotsDiffer(m, last, c);
          }
        }
      }
    }
  }

  lemma PublishKeeps(n: nat, c: nat, s: State)
    requires 0 < n < c && Inv(n, c, s) && Enabled(n, c, s, Publish) && InBounds(c, s)
    ensures Inv(n, c, Apply(n, c, s, Publish))
  {
    var t := Apply(n, c, s, Publish);
    SlotPlus(s.published, 1, c);
    forall k: nat | k < COLUMNS
      ensures ColumnHolds(n, c, t.mem.Column(k), k, t.begun, StoredUpTo(n, t, k))
    {
      assert ColumnHolds(n, c, s.mem.Column(k), k, s.begun, StoredUpTo(n, s, k));
    }
  }

  /** The loop test of the reader: in 0..n it fails for the n-th entry only. */
  lemma LoopTest(n: nat, c: nat, since: nat, k: nat)
    requires 0 < n < c && k <= n
    ensures Slot(since + k, c) == (Slot(since, c) + n) % c <==> k == n
  {
    SlotPlus(since, n, c);
    if k < n {
      SlotsDiffer(since + k, since + n, c);
    }
  }

  lemma ReaderChangeKeeps(n: nat, c: nat, s: State, id: nat, r: Reader)
    requires 0 < n < c && Inv(n, c, s) && ReaderOk(n, c, r, s.begun, s.published)
    ensures Inv(n, c, s.(readers := s.readers[id := r]))
  {
    var t := s.(readers := s.readers[id := r]);
    forall k: nat | k < COLUMNS
      ensures ColumnHolds(n, c, t.mem.Column(k), k, t.begun, StoredUpTo(n, t, k))
    {
      assert ColumnHolds(n, c, s.mem.Column(k), k, s.begun, StoredUpTo(n, s, k));
    }
  }

  lemma ColumnReadOk(n: nat, c: nat, r: Reader, v: int, begun: seq<Record>, published: nat)
    requires 0 < n < c && ReaderOk(n, c, r, begun, published)
    requires |r.copied| < n && |r.partial| < COLUMNS
    requires |begun| <= r.since + (c - n) + |r.copied| ==>
               v == Field(LogAt(n, begun, r.since + |r.copied|), |r.partial|)
    ensures ReaderOk(n, c, r.(partial := r.partial + [v]), begun, published)
  {
  }

  lemma ReadKeeps(n: nat, c: nat, s: State, id: nat)
    requires 0 < n < c && Inv(n, c, s) && Enabled(n, c, s, Read(id)) && InBounds(c, s)
    ensures Inv(n, c, Apply(n, c, s, Read(id)))
  {
    var r := s.readers[id];
    var k := |r.partial|;
    var v := s.mem.Column(k)[r.i];
    assert |r.copied| < n by {
      LoopTest(n, c, r.since, |r.copied|);
    }
    assert ColumnHolds(n, c, s.mem.Column(k), k, s.begun, StoredUpTo(n, s, k));
    ColumnReadOk(n, c, r, v, s.begun, s.published);
    ReaderChangeKeeps(n, c, s, id, r.(partial := r.partial + [v]));
  }

  lemma EntryComplete(n: nat, c: nat, r: Reader, i: nat, begun: seq<Record>, published: nat)
    requires 0 < n < c && ReaderOk(n, c, r, begun, published) && |r.partial| == COLUMNS
    requires i == Slot(r.since + |r.copied| + 1, c)
    ensures ReaderOk(n, c, r.(i := i, partial := [], marks := r.marks + [|begun|],
                              copied := r.copied + [Record(r.partial[0], r.partial[1], r.partial[2], r.partial[3])]),
                     begun, published)
  {
    PartialIsEntry(n, c, r, begun, published);
  }

  lemma PartialIsEntry(n: nat, c: nat, r: Reader, begun: seq<Record>, published: nat)
    requires 0 < n < c && ReaderOk(n, c, r, begun, published) && |r.partial| == COLUMNS
    ensures |begun| <= r.since + (c - n) + |r.copied| ==>
              Record(r.partial[0], r.partial[1], r.partial[2], r.partial[3]) == LogAt(n, begun, r.since + |r.copied|)
  {
    if |begun| <= r.since + (c - n) + |r.copied| {
      var x := LogAt(n, begun, r.since + |r.copied|);
      assert r.partial[0] == Field(x, 0) && r.partial[1] == Field(x, 1);
      assert r.partial[2] == Field(x, 2) && r.partial[3] == Field(x, 3);
    }
  }

  lemma AdvanceKeeps(n: nat, c: nat, s: State, id: nat)
    requires 0 < n < c && Inv(n, c, s) && Enabled(n, c, s, Advance(id)) && InBounds(c, s)
    ensures Inv(n, c, Apply(n, c, s, Advance(id)))
  {
    var r := s.readers[id];
    SlotPlus(r.since + |r.copied|, 1, c);
    EntryComplete(n, c, r, (r.i + 1) % c, s.begun, s.published);
    ReaderChangeKeeps(n, c, s, id, Apply(n, c, s, Advance(id)).readers[id]);
  }

  lemma OpenKeeps(n: nat, c: nat, s: State, id: nat)
    requires 0 < n < c && Inv(n, c, s) && InBounds(c, s) && Enabled(n, c, s, Open(id))
    ensures Inv(n, c, Apply(n, c, s, Open(id)))
  {
    var r := Reader(s.mem.start, s.mem.start, [], [], s.published, []);
    ReaderChangeKeeps(n, c, s, id, r);
  }

  lemma StepKeeps(n: nat, c: nat, s: State, e: Event)
    requires 0 < n < c && Inv(n, c, s) && Enabled(n, c, s, e)
    ensures InBounds(c, s) && Inv(n, c, Apply(n, c, s, e))
  {
    InvInBounds(n, c, s);
    match e {
      case Begin(rec) => BeginKeeps(n, c, s, rec);
      case Store => StoreKeeps(n, c, s);
      case Publish => PublishKeeps(n, c, s);
      case Open(id) => OpenKeeps(n, c, s, id);
      case Read(id) => ReadKeeps(n, c, s, id);
      case Advance(id) => AdvanceKeeps(n, c, s, id);
    }
  }

  // ---------------------------------------------------------------- runs

  lemma StaysInBounds(n: nat, c: nat, s: State, e: Event)
    requires 0 < n < c && InBounds(c, s) && Enabled(n, c, s, e)
    ensures InBounds(c, Apply(n, c, s, e))
  {
  }

  /** The state after any interleaving; an event that is not enabled changes nothing. */
  ghost function After(n: nat, c: nat, es: seq<Event>): (s: State)
    requires 0 < n < c
    ensures InBounds(c, s)
  {
    if es == [] then Init(c)
    else
      var s := After(n, c, es[..|es| - 1]);
      var e := es[|es| - 1];
      if Enabled(n, c, s, e) then
        StaysInBounds(n, c, s, e);
        Apply(n, c, s, e)
      else s
  }

  lemma {:induction false} AfterKeeps(n: nat, c: nat, es: seq<Event>)
    requires 0 < n < c
    ensures Inv(n, c, After(n, c, es))
  {
    if es == [] {
      InitKeeps(n, c);
    } else {
      var s := After(n, c, es[..|es| - 1]);
      AfterKeeps(n, c, es[..|es| - 1]);
      if Enabled(n, c, s, es[|es| - 1]) {
        StepKeeps(n, c, s, es[|es| - 1]);
      }
    }
  }

  /** The last n of n zero records followed by all samples. */
  function LastRecords(n: nat, samples: seq<Record>): (w: seq<Record>)
    ensures |w| == n
  {
    (seq(n, _ => ZERO) + samples)[|samples|..]
  }

  lemma LastRecordsAt(n: nat, begun: seq<Record>, w: nat, k: nat)
    requires w <= |begun| && k < n
    ensures LastRecords(n, begun[..w])[k] == LogAt(n, begun, w + k)
  {
  }

  /** Over any interleaving, the k-th copied entry is the k-th entry of the window that was current when
      the reader read the start index, provided that at most (c - n) + k samples had begun since then,
      one in flight at that moment included. */
  lemma CopiedEntryIsIntact(n: nat, c: nat, es: seq<Event>, id: nat, k: nat)
    requires 0 < n < c
    ensures var s := After(n, c, es);
            id in s.readers && k < |s.readers[id].copied| ==>
              var r := s.readers[id];
              && k < |r.marks| == |r.copied| <= n && r.since <= s.published <= |s.begun|
              && (r.marks[k] - r.since <= (c - n) + k ==>
                    r.copied[k] == LastRecords(n, s.begun[..r.since])[k])
  {
    var s := After(n, c, es);
    AfterKeeps(n, c, es);
    if id in s.readers && k < |s.readers[id].copied| {
      LastRecordsAt(n, s.begun, s.readers[id].since, k);
    }
  }

  /** A reader that has left its loop has copied exactly n entries; if no more than c - n samples began
      meanwhile, they are exactly the window it meant to copy. */
  lemma FinishedCopyIsWindow(n: nat, c: nat, es: seq<Event>, id: nat)
    requires 0 < n < c
    ensures var s := After(n, c, es);
            id in s.readers && s.readers[id].i == (s.readers[id].s + n) % c ==>
              var r := s.readers[id];
              && |r.copied| == n == |r.marks| && r.since <= |s.begun|
              && (r.marks[n - 1] - r.since <= c - n ==> r.copied == LastRecords(n, s.begun[..r.since]))
  {
    AfterKeeps(n, c, es);
    FinishedCopy(n, c, After(n, c, es), id);
  }

  lemma FinishedCopy(n: nat, c: nat, s: State, id: nat)
    requires 0 < n < c && Inv(n, c, s)
    ensures id in s.readers && s.readers[id].i == (s.readers[id].s + n) % c ==>
              var r := s.readers[id];
              && |r.copied| == n == |r.marks| && r.since <= |s.begun|
              && (r.marks[n - 1] - r.since <= c - n ==> r.copied == LastRecords(n, s.begun[..r.since]))
  {
    if id in s.readers {
      FinishedReader(n, c, s.readers[id], s.begun, s.published);
    }
  }

  lemma FinishedReader(n: nat, c: nat, r: Reader, begun: seq<Record>, published: nat)
    requires 0 < n < c && ReaderOk(n, c, r, begun, published)
    ensures r.since <= |begun|
    ensures r.i == (r.s + n) % c ==>
              && |r.copied| == n == |r.marks|
              && (r.marks[n - 1] - r.since <= c - n ==> r.copied == LastRecords(n, begun[..r.since]))
  {
    LoopTest(n, c, r.since, |r.copied|);
    if |r.copied| == n {
      IntactWindow(n, c, r, begun, published);
    }
  }

  lemma IntactWindow(n: nat, c: nat, r: Reader, begun: seq<Record>, published: nat)
    requires 0 < n < c && ReaderOk(n, c, r, begun, published) && |r.copied| == n
    ensures r.marks[n - 1] - r.since <= c - n ==> r.copied == LastRecords(n, begun[..r.since])
  {
    if r.marks[n - 1] - r.since <= c - n {
      forall k | 0 <= k < n
        ensures r.copied[k] == LastRecords(n, begun[..r.since])[k]
      {
        assert r.marks[k] <= r.marks[n - 1];
        LastRecordsAt(n, begun, r.since, k);
      }
    }
  }

  // ---------------------------------------------------------------- one whole pass of the writer

  /** The memory after all six steps of the writer for one sample. */
  function Sampled(n: nat, c: nat, m: Memory, rec: Record): Memory
    requires c > 0 && m.Sized(c)
  {
    var i := (m.start + n) % c;
    Memory(m.desired[i := rec.desired], m.position[i := rec.position], m.duty[i := rec.duty],
           m.stamp[i := rec.stamp], (m.start + 1) % c)
  }

  /** The steps es, all enabled, lead from s to t. */
  ghost predicate LeadsTo(n: nat, c: nat, s: State, es: seq<Event>, t: State)
    requires 0 < n < c
    decreases |es|
  {
    if es == [] then s == t
    else
      && InBounds(c, s) && Enabled(n, c, s, es[0])
      && LeadsTo(n, c, Apply(n, c, s, es[0]), es[1..], t)
  }

  lemma Prepend(n: nat, c: nat, s: State, e: Event, es: seq<Event>, t: State)
    requires 0 < n < c && InBounds(c, s) && Enabled(n, c, s, e) && LeadsTo(n, c, Apply(n, c, s, e), es, t)
    ensures LeadsTo(n, c, s, [e] + es, t)
  {
    assert ([e] + es)[1..] == es;
  }

  /** The stores and the update of the index. */
  const STORES: seq<Event> := [Store, Store, Store, Store, Publish]

  lemma StoresLead(n: nat, c: nat, s: State) returns (t: State)
    requires 0 < n < c && InBounds(c, s) && s.writer.Storing? && s.writer.stored == 0
    ensures LeadsTo(n, c, s, STORES, t)
    ensures var i, rec := s.writer.slot, s.writer.rec;
            t == s.(writer := Idle, published := s.published + 1,
                    mem := Memory(s.mem.desired[i := rec.desired], s.mem.position[i := rec.position],
                                  s.mem.duty[i := rec.duty], s.mem.stamp[i := rec.stamp], (s.mem.start + 1) % c))
  {
    var s1 := Apply(n, c, s, Store);
    var s2 := Apply(n, c, s1, Store);
    var s3 := Apply(n, c, s2, Store);
    var s4 := Apply(n, c, s3, Store);
    t := Apply(n, c, s4, Publish);
    assert LeadsTo(n, c, t, [], t);
    Prepend(n, c, s4, Publish, [], t);
    Prepend(n, c, s3, Store, [Publish], t);
    Prepend(n, c, s2, Store, [Store, Publish], t);
    Prepend(n, c, s1, Store, [Store, Store, Publish], t);
    Prepend(n, c, s, Store, [Store, Store, Store, Publish], t);
    assert STORES == [Store] + [Store, Store, Store, Publish];
  }

  lemma {:induction false} LeadsToKeeps(n: nat, c: nat, s: State, es: seq<Event>, t: State)
    requires 0 < n < c && Inv(n, c, s) && LeadsTo(n, c, s, es, t)
    ensures Inv(n, c, t)
    decreases |es|
  {
    if es != [] {
      StepKeeps(n, c, s, es[0]);
      LeadsToKeeps(n, c, Apply(n, c, s, es[0]), es[1..], t);
    }
  }

  /** One undisturbed turn of the writer is a run of its six steps, and keeps the invariant. */
  lemma SampledKeeps(n: nat, c: nat, s: State, rec: Record)
    requires 0 < n < c && Inv(n, c, s) && s.writer.Idle? && InBounds(c, s)
    ensures var t := s.(mem := Sampled(n, c, s.mem, rec), begun := s.begun + [rec], published := s.published + 1);
            LeadsTo(n, c, s, [Begin(rec)] + STORES, t) && Inv(n, c, t) && InBounds(c, t)
  {
    var t := StoresLead(n, c, Apply(n, c, s, Begin(rec)));
    Prepend(n, c, s, Begin(rec), STORES, t);
    LeadsToKeeps(n, c, s, [Begin(rec)] + STORES, t);
    InvInBounds(n, c, t);
  }

  lemma AfterSnoc(n: nat, c: nat, es: seq<Event>, e: Event)
    requires 0 < n < c
    ensures After(n, c, es + [e])
            == if Enabled(n, c, After(n, c, es), e) then Apply(n, c, After(n, c, es), e) else After(n, c, es)
  {
    assert (es + [e])[..|es|] == es;
  }

  lemma AfterStore(n: nat, c: nat, es: seq<Event>)
    requires 0 < n < c && After(n, c, es).writer.Storing? && After(n, c, es).writer.stored < COLUMNS
    ensures var s, t := After(n, c, es), After(n, c, es + [Store]);
            && t.writer.Storing? && t.writer.stored == s.writer.stored + 1
            && t.begun == s.begun && t.published == s.published && t.readers == s.readers
  {
    AfterSnoc(n, c, es, Store);
  }

  /** The steps that complete a sample. */
  function Completion(es: seq<Event>): seq<Event> {
    es + [Store] + [Store] + [Store] + [Store] + [Publish]
  }

  lemma AfterCompletion(n: nat, c: nat, es: seq<Event>)
    requires 0 < n < c && After(n, c, es).writer.Storing? && After(n, c, es).writer.stored == 0
    ensures var s, t := After(n, c, es), After(n, c, Completion(es));
            t.writer.Idle? && t.begun == s.begun && t.published == s.published + 1 && t.readers == s.readers
  {
    AfterStore(n, c, es);
    AfterStore(n, c, es + [Store]);
    AfterStore(n, c, es + [Store] + [Store]);
    AfterStore(n, c, es + [Store] + [Store] + [Store]);
    AfterSnoc(n, c, es + [Store] + [Store] + [Store] + [Store], Publish);
  }

  lemma {:induction false} AfterPasses(n: nat, c: nat, es: seq<Event>, rec: Record, k: nat) returns (fs: seq<Event>)
    requires 0 < n < c && After(n, c, es).writer.Idle?
    ensures var s, t := After(n, c, es), After(n, c, fs);
            && t.writer.Idle? && t.readers == s.readers && t.published == s.published + k
            && t.begun == s.begun + seq(k, _ => rec)
    ensures es <= fs
  {
    if k == 0 {
      fs := es;
    } else {
      fs := AfterPasses(n, c, es, rec, k - 1);
      AfterSnoc(n, c, fs, Begin(rec));
      AfterCompletion(n, c, fs + [Begin(rec)]);
      fs := Completion(fs + [Begin(rec)]);
    }
  }

  // ---------------------------------------------------------------- where a column comes from

  lemma SlotAfterLap(m: nat, c: nat)
    requires c > 0
    ensures Slot(m + c, c) == Slot(m, c)
  {
    SlotPlus(m, c, c);
    ModUnique(Slot(m, c) + c, 1, Slot(m, c), c);
  }

  /** The log record `laps` rounds of the ring after the m-th. */
  ghost function Later(m: nat, laps: nat, c: nat): (last: nat)
    ensures last >= m
    decreases laps
  {
    if laps == 0 then m else Later(m + c, laps - 1, c)
  }

  lemma {:induction false} LaterIsProduct(m: nat, laps: nat, c: nat)
    ensures Later(m, laps, c) == m + laps * c
    decreases laps
  {
    if laps > 0 {
      LaterIsProduct(m + c, laps - 1, c);
      assert laps * c == (laps - 1) * c + c;
    }
  }

  /** The last of the log records m, m + c, m + 2c, ... below `upto`; they share the slot of m. */
  lemma {:induction false} LastLap(m: nat, upto: nat, c: nat) returns (laps: nat, last: nat)
    requires c > 0 && m < upto
    ensures last == Later(m, laps, c) && last < upto <= last + c && Slot(last, c) == Slot(m, c)
    ensures laps == 0 <==> upto <= m + c
    decreases upto - m
  {
    if upto <= m + c {
      laps, last := 0, m;
    } else {
      laps, last := LastLap(m + c, upto, c);
      laps := laps + 1;
      SlotAfterLap(m, c);
    }
  }

  /** The stores into column j since the reader read the start index. */
  ghost function StoresSince(n: nat, s: State, r: Reader, j: nat): int {
    StoredUpTo(n, s, j) - n - r.since
  }

  lemma ColumnContents(n: nat, c: nat, s: State, j: nat, m: nat)
    requires 0 < n < c && WriterOk(n, c, s) && j < COLUMNS && m < StoredUpTo(n, s, j) <= m + c
    ensures m < n + |s.begun| && |s.mem.Column(j)| == c
    ensures s.mem.Column(j)[Slot(m, c)] == Field(LogAt(n, s.begun, m), j)
  {
    assert ColumnHolds(n, c, s.mem.Column(j), j, s.begun, StoredUpTo(n, s, j));
  }

  lemma ReaderIsPlaced(n: nat, c: nat, s: State, id: nat)
    requires 0 < n < c && Inv(n, c, s) && Enabled(n, c, s, Read(id))
    ensures var r := s.readers[id];
            && |r.copied| < n && r.i == Slot(r.since + |r.copied|, c) && r.since <= s.published
  {
    assert ReaderOk(n, c, s.readers[id], s.begun, s.published);
    LoopTest(n, c, s.readers[id].since, |s.readers[id].copied|);
  }

  /** What a reader reads next, as column j of its k-th entry: column j of the record `laps` rounds after
      the one it means to read. */
  lemma ColumnSource(n: nat, c: nat, s: State, id: nat) returns (laps: nat, m: nat)
    requires 0 < n < c && Inv(n, c, s) && InBounds(c, s) && Enabled(n, c, s, Read(id))
    ensures var r := s.readers[id];
            var j := |r.partial|;
            && |r.copied| < n && m == Later(r.since + |r.copied|, laps, c) < n + |s.begun|
            && Apply(n, c, s, Read(id)).readers[id].partial == r.partial + [Field(LogAt(n, s.begun, m), j)]
            && m < StoredUpTo(n, s, j) <= m + c
            && (laps == 0 <==> StoresSince(n, s, r, j) <= (c - n) + |r.copied|)
  {
    var r := s.readers[id];
    var k, j := |r.copied|, |r.partial|;
    ReaderIsPlaced(n, c, s, id);
    laps, m := LastLap(r.since + k, StoredUpTo(n, s, j), c);
    ColumnContents(n, c, s, j, m);
  }

  /** Reader id is about to read column j of its k-th entry, and what it reads is column j of record m of the
      log, `laps` rounds of the ring after the record that it means to read. */
  ghost predicate ReadsRecord(n: nat, c: nat, s: State, id: nat, laps: nat, m: nat)
    requires 0 < n < c && InBounds(c, s) && Enabled(n, c, s, Read(id))
  {
    var r := s.readers[id];
    var j, k := |r.partial|, |r.copied|;
    && k < n && m == r.since + k + laps * c < n + |s.begun|
    && Apply(n, c, s, Read(id)).readers[id].partial == r.partial + [Field(LogAt(n, s.begun, m), j)]
    && m < StoredUpTo(n, s, j) <= m + c
    && (laps == 0 <==> StoresSince(n, s, r, j) <= (c - n) + k)
  }

  lemma ColumnRecord(n: nat, c: nat, s: State, id: nat) returns (laps: nat, m: nat)
    requires 0 < n < c && Inv(n, c, s) && InBounds(c, s) && Enabled(n, c, s, Read(id))
    ensures ReadsRecord(n, c, s, id, laps, m)
  {
    laps, m := ColumnSource(n, c, s, id);
    LaterIsProduct(s.readers[id].since + |s.readers[id].copied|, laps, c);
  }

  /** In any run, column j of the k-th entry is read from record m of the log, the latest one stored in its
      slot: the records that share the slot are c apart, and column j is stored beyond m but not beyond m + c.
      That is the record of the window that was current when the reader read the start index if and only if
      column j was stored at most (c - n) + k times since then. */
  lemma ColumnIsFromWindow(n: nat, c: nat, es: seq<Event>, id: nat) returns (laps: nat, m: nat)
    requires 0 < n < c
    ensures Enabled(n, c, After(n, c, es), Read(id)) ==> ReadsRecord(n, c, After(n, c, es), id, laps, m)
  {
    laps, m := 0, 0;
    if Enabled(n, c, After(n, c, es), Read(id)) {
      AfterKeeps(n, c, es);
      laps, m := ColumnRecord(n, c, After(n, c, es), id);
    }
  }

  // ---------------------------------------------------------------- the bound is exact

  /** Only the reader with this id differs in t. */
  ghost predicate SameButReader(s: State, t: State, id: nat) {
    t == s.(readers := t.readers) && id in s.readers && id in t.readers
  }

  lemma AfterRead(n: nat, c: nat, es: seq<Event>, id: nat)
    requires 0 < n < c && id in After(n, c, es).readers
    requires |After(n, c, es).readers[id].partial| < COLUMNS && |After(n, c, es).readers[id].copied| < n
    ensures var s, t := After(n, c, es), After(n, c, es + [Read(id)]);
            && SameButReader(s, t, id) && t.readers[id] == s.readers[id].(partial := t.readers[id].partial)
            && Enabled(n, c, s, Read(id)) && t == Apply(n, c, s, Read(id))
            && |t.readers[id].partial| == |s.readers[id].partial| + 1
  {
    AfterKeeps(n, c, es);
    CanRead(n, c, After(n, c, es), id);
    AfterSnoc(n, c, es, Read(id));
  }

  lemma CanRead(n: nat, c: nat, s: State, id: nat)
    requires 0 < n < c && Inv(n, c, s) && InBounds(c, s) && id in s.readers
    requires |s.readers[id].partial| < COLUMNS && |s.readers[id].copied| < n
    ensures Enabled(n, c, s, Read(id))
    ensures var t := Apply(n, c, s, Read(id));
            && SameButReader(s, t, id) && t.readers[id] == s.readers[id].(partial := t.readers[id].partial)
            && |t.readers[id].partial| == |s.readers[id].partial| + 1
  {
    LoopTest(n, c, s.readers[id].since, |s.readers[id].copied|);
  }

  ghost predicate EntryAdded(s: State, t: State, id: nat) {
    && SameButReader(s, t, id)
    && var r, u := s.readers[id], t.readers[id];
       && u.since == r.since && u.partial == []
       && |u.copied| == |r.copied| + 1 && u.marks == r.marks + [|s.begun|]
  }

  lemma AdvanceAddsEntry(n: nat, c: nat, s: State, id: nat)
    requires 0 < n < c && InBounds(c, s) && id in s.readers && |s.readers[id].partial| == COLUMNS
    ensures EntryAdded(s, Apply(n, c, s, Advance(id)), id)
  {
  }

  lemma AfterAdvance(n: nat, c: nat, es: seq<Event>, id: nat)
    requires 0 < n < c && id in After(n, c, es).readers && |After(n, c, es).readers[id].partial| == COLUMNS
    ensures var s, t := After(n, c, es), After(n, c, es + [Advance(id)]);
            EntryAdded(s, t, id)
  {
    AdvanceAddsEntry(n, c, After(n, c, es), id);
    AfterSnoc(n, c, es, Advance(id));
  }

  function Entry(es: seq<Event>, id: nat): seq<Event> {
    es + [Read(id)] + [Read(id)] + [Read(id)] + [Read(id)] + [Advance(id)]
  }

  lemma AfterEntry(n: nat, c: nat, es: seq<Event>, id: nat)
    requires 0 < n < c && id in After(n, c, es).readers
    requires After(n, c, es).readers[id].partial == [] && |After(n, c, es).readers[id].copied| < n
    ensures var s, t := After(n, c, es), After(n, c, Entry(es, id));
            EntryAdded(s, t, id)
  {
    AfterRead(n, c, es, id);
    AfterRead(n, c, es + [Read(id)], id);
    AfterRead(n, c, es + [Read(id)] + [Read(id)], id);
    AfterRead(n, c, es + [Read(id)] + [Read(id)] + [Read(id)], id);
    AfterAdvance(n, c, es + [Read(id)] + [Read(id)] + [Read(id)] + [Read(id)], id);
  }

  /** A reader copies k entries while the writer rests. */
  lemma {:induction false} AfterEntries(n: nat, c: nat, es: seq<Event>, id: nat, k: nat) returns (fs: seq<Event>)
    requires 0 < n < c && k <= n && id in After(n, c, es).readers
    requires After(n, c, es).readers[id].partial == [] && After(n, c, es).readers[id].copied == []
    ensures var s, t := After(n, c, es), After(n, c, fs);
            && SameButReader(s, t, id)
            && var u := t.readers[id];
            && u.since == s.readers[id].since && u.partial == []
            && |u.copied| == k && u.marks == seq(k, _ => |s.begun|)
    ensures es <= fs
  {
    if k == 0 {
      fs := es;
      AfterKeeps(n, c, es);
    } else {
      fs := AfterEntries(n, c, es, id, k - 1);
      AfterEntry(n, c, fs, id);
      fs := Entry(fs, id);
    }
  }

  /** The second step of the run is that reader id reads the start index, while the writer has begun one
      sample and published none. */
  ghost predicate OpensInFlight(n: nat, c: nat, es: seq<Event>, id: nat)
    requires 0 < n < c
  {
    && |es| >= 2 && es[1] == Open(id)
    && var s := After(n, c, es[..1]);
       s.writer.Storing? && |s.begun| == 1 && s.published == 0 && s.readers == map[]
  }

  /** The writer begins a sample, and a reader reads the start index. */
  lemma OpenInFlight(n: nat, c: nat, rec: Record, id: nat) returns (es: seq<Event>)
    requires 0 < n < c
    ensures var s := After(n, c, es);
            && s.writer.Storing? && s.writer.stored == 0 && s.begun == [rec] && s.published == 0
            && s.readers == map[id := Reader(0, 0, [], [], 0, [])]
    ensures OpensInFlight(n, c, es, id)
  {
    AfterSnoc(n, c, [], Begin(rec));
    var e1 := [] + [Begin(rec)];
    AfterSnoc(n, c, e1, Open(id));
    es := e1 + [Open(id)];
    assert es[..1] == e1;
  }

  /** The reader has copied k entries, and in all (c - n) + k + 1 samples have been stored. */
  lemma LateRun(n: nat, c: nat, rec: Record, id: nat, k: nat) returns (es: seq<Event>)
    requires 0 < n < c && k < n
    ensures var s := After(n, c, es);
            && s.writer.Idle? && s.begun == [rec] + seq((c - n) + k, _ => rec) && s.published == (c - n) + k + 1
            && id in s.readers && s.readers[id].since == 0 && s.readers[id].partial == []
            && |s.readers[id].copied| == k && s.readers[id].marks == seq(k, _ => 1)
    ensures OpensInFlight(n, c, es, id)
  {
    var e0 := OpenInFlight(n, c, rec, id);
    var e1 := AfterEntries(n, c, e0, id, k);
    AfterCompletion(n, c, e1);
    es := AfterPasses(n, c, Completion(e1), rec, (c - n) + k);
    assert e0 <= e1 <= Completion(e1) <= es;
    assert es[..1] == e0[..1];
  }

  lemma EarlyEntriesAreZero(n: nat, c: nat, r: Reader, begun: seq<Record>, published: nat, k: nat)
    requires 0 < n < c && ReaderOk(n, c, r, begun, published) && r.since == 0 && k < n
    requires |r.copied| == k && r.marks == seq(k, _ => 1)
    ensures r.copied == LastRecords(n, begun[..0])[..k]
    ensures Field(LastRecords(n, begun[..0])[k], 0) == 0
  {
    assert LastRecords(n, begun[..0]) == seq(n, _ => ZERO);
  }

  /** The bound is exact for every entry, and a sample in flight counts: if one sample is in flight when the
      start index is read, the first k entries are copied at once, and (c - n) + k further samples are
      written before the first column of the k-th entry is read, then those k entries come from the window,
      and that column does not. */
  lemma BoundIsExact(n: nat, c: nat, k: nat) returns (es: seq<Event>, id: nat)
    requires 0 < n < c && k < n
    ensures OpensInFlight(n, c, es, id)
    ensures var s := After(n, c, es);
            && |s.begun| == (c - n) + k + 1
            && id in s.readers && s.readers[id].since == 0
            && s.readers[id].copied == LastRecords(n, s.begun[..0])[..k]
            && s.readers[id].partial == [1] && Field(LastRecords(n, s.begun[..0])[k], 0) == 0
  {
    id := 0;
    var one := Record(1, 1, 1, 1);
    es := LateRun(n, c, one, id, k);
    var s := After(n, c, es);
    AfterKeeps(n, c, es);
    EarlyEntriesAreZero(n, c, s.readers[id], s.begun, s.published, k);
    AfterRead(n, c, es, id);
    var laps, m := ColumnSource(n, c, s, id);
    assert laps >= 1 && m == Later(k + c, laps - 1, c) == k + c;
    assert s.begun[k + c - n] == one;
    assert LogAt(n, s.begun, k + c) == one;
    assert (es + [Read(id)])[..1] == es[..1];
    es := es + [Read(id)];
  }
}
