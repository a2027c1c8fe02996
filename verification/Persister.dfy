/** The persister's write-behind buffer: saves collect in memory and reach the database in
    batches, taken and written in two separate steps. */
module Persister {
  import opened Types
  import opened Events
  import opened Updates

  /** The one tracker row, or the row of a check. */
  datatype Key = TrackerKey | CheckKey(name: string)

  /** `fired` counts the timer functions that have started and not yet taken a batch; `inflight`
      holds the batches taken and not yet written. */
  datatype Buffer<V> = Buffer(
    db: map<Key, V>, inflight: seq<map<Key, V>>, pending: map<Key, V>, timer: Option<Time>, fired: nat, closed: bool)

  /** An armed timer is left alone. */
  function Buffered<V>(s: Buffer<V>, k: Key, v: V, now: Time, interval: Duration): Buffer<V> {
    s.(pending := s.pending[k := v], timer := if s.timer.Some? then s.timer else Some(now + interval))
  }

  function Take<V>(s: Buffer<V>): Buffer<V> {
    s.(inflight := s.inflight + [s.pending], pending := map[])
  }

  /** A batch in flight is written, or dropped if the persister was closed in between. */
  function Write<V>(s: Buffer<V>, i: nat): Buffer<V>
    requires i < |s.inflight|
  {
    s.(db := if s.closed then s.db else s.db + s.inflight[i], inflight := s.inflight[..i] + s.inflight[i + 1..])
  }

  function Flush<V>(s: Buffer<V>): Buffer<V> {
    Write(Take(s), |s.inflight|)
  }

  /** A timer's function starts: it disarms first, so that later saves arm a new timer. */
  function Fire<V>(s: Buffer<V>): Buffer<V> {
    s.(timer := None, fired := s.fired + 1)
  }

  function TakeFired<V>(s: Buffer<V>): Buffer<V>
    requires s.fired > 0
  {
    Take(s).(fired := s.fired - 1)
  }

  /** Closing stops an armed timer, but may come too late to keep its function from running. */
  function Stop<V>(s: Buffer<V>, late: bool): Buffer<V> {
    s.(timer := None, fired := if late && s.timer.Some? then s.fired + 1 else s.fired)
  }

  /** Coming too late is stopping after the timer has fired. */
  lemma LateStopIsAfterFiring<V>(s: Buffer<V>, late: bool)
    ensures Stop(s, late) == if late && s.timer.Some? then Stop(Fire(s), false) else s.(timer := None)
  {
  }

  // ---------------------------------------------------------------- agreement with a direct store

  /** Batches laid over each other, later ones on top. */
  function Merge<V>(bs: seq<map<Key, V>>): map<Key, V> {
    if bs == [] then map[] else Merge(bs[..|bs| - 1]) + bs[|bs| - 1]
  }

  /** What the database will hold once everything is written in order. */
  function View<V>(s: Buffer<V>): map<Key, V> {
    s.db + Merge(s.inflight) + s.pending
  }

  datatype Op<V> = Saving(key: Key, value: V, now: Time) | Firing | Taking | Writing(i: nat)

  function Do<V>(s: Buffer<V>, op: Op<V>, interval: Duration): Buffer<V> {
    match op
    case Saving(k, v, now) => Buffered(s, k, v, now, interval)
    case Firing => if s.timer.Some? then Fire(s) else s
    case Taking => if s.fired > 0 then TakeFired(s) else s
    case Writing(i) => if i < |s.inflight| then Write(s, i) else s
  }

  function DoAll<V>(s: Buffer<V>, ops: seq<Op<V>>, interval: Duration): Buffer<V> {
    if ops == [] then s else Do(DoAll(s, ops[..|ops| - 1], interval), ops[|ops| - 1], interval)
  }

  /** A store that writes every save at once. */
  function Direct<V>(db: map<Key, V>, ops: seq<Op<V>>): map<Key, V> {
    if ops == [] then db
    else
      var before, last := Direct(db, ops[..|ops| - 1]), ops[|ops| - 1];
      if last.Saving? then before[last.key := last.value] else before
  }

  function Opened<V>(db: map<Key, V>): Buffer<V> {
    Buffer(db, [], map[], None, 0, false)
  }

  /** Every write is of the oldest batch in flight; with one flush at a time there is no other. */
  predicate OldestFirst<V>(ops: seq<Op<V>>) {
    forall i :: 0 <= i < |ops| && ops[i].Writing? ==> ops[i].i == 0
  }

  lemma Associative<V>(a: map<Key, V>, b: map<Key, V>, c: map<Key, V>)
    ensures a + b + c == a + (b + c)
  {
  }

  lemma {:induction false} MergeAppends<V>(a: seq<map<Key, V>>, b: seq<map<Key, V>>)
    ensures Merge(a + b) == Merge(a) + Merge(b)
    decreases |b|
  {
    if b == [] {
      assert a + b == a;
    } else {
      var front, last := b[..|b| - 1], b[|b| - 1];
      assert (a + b)[..|a + b| - 1] == a + front;
      MergeAppends(a, front);
      Associative(Merge(a), Merge(front), last);
    }
  }

  lemma MergeOne<V>(b: map<Key, V>)
    ensures Merge([b]) == b
  {
    assert [b][..0] == [];
    assert Merge<V>([]) == map[];
  }

  lemma SplitAt<T>(s: seq<T>, i: nat)
    requires i < |s|
    ensures s == s[..i] + ([s[i]] + s[i + 1..])
  {
  }

  /** The in-flight batches, split at one of them. */
  lemma {:induction false} MergeAround<V>(bs: seq<map<Key, V>>, i: nat)
    requires i < |bs|
    ensures Merge(bs) == Merge(bs[..i]) + bs[i] + Merge(bs[i + 1..])
    ensures Merge(bs[..i] + bs[i + 1..]) == Merge(bs[..i]) + Merge(bs[i + 1..])
  {
    SplitAt(bs, i);
    MergeAppends(bs[..i], [bs[i]] + bs[i + 1..]);
    MergeAppends([bs[i]], bs[i + 1..]);
    MergeOne(bs[i]);
    MergeAppends(bs[..i], bs[i + 1..]);
    Associative(Merge(bs[..i]), bs[i], Merge(bs[i + 1..]));
  }

  /** Writing a batch loses nothing: where no later batch has the key, every older batch still
      in flight that has it has the same value. */
  ghost predicate Harmless<V>(s: Buffer<V>, i: nat)
    requires i < |s.inflight|
  {
    var older, later := Merge(s.inflight[..i]), Merge(s.inflight[i + 1..]) + s.pending;
    forall k :: k in s.inflight[i] && k in older && k !in later ==> older[k] == s.inflight[i][k]
  }

  /** Writing any batch in flight keeps the view exactly when it is harmless: with two flushes
      at once, the older one written last puts back an older value. */
  lemma WriteKeepsViewExactly<V>(s: Buffer<V>, i: nat)
    requires i < |s.inflight| && !s.closed
    ensures View(Write(s, i)) == View(s) <==> Harmless(s, i)
  {
    var b, older, newer := s.inflight[i], Merge(s.inflight[..i]), Merge(s.inflight[i + 1..]);
    MergeAround(s.inflight, i);
    Overlaid(s.db, older, b, newer, s.pending);
    Overlaid(s.db + b, older, map[], newer, s.pending);
    NothingOnTop(older);
    NothingOnTop(s.db + b + older);
    SwapIsHarmless(s.db, b, older, newer + s.pending);
  }

  lemma Overlaid<V>(a: map<Key, V>, b: map<Key, V>, c: map<Key, V>, d: map<Key, V>, e: map<Key, V>)
    ensures a + (b + c + d) + e == a + b + c + (d + e)
  {
  }

  lemma NothingOnTop<V>(m: map<Key, V>)
    ensures m + map[] == m && map[] + m == m
  {
  }

  /** Two flushes at once: the second takes and writes a newer value, then the first writes its
      own. The database ends with the old value and nothing left to write. */
  lemma TwoFlushesPutBackAnOldValue(k: Key, now: Time, interval: Duration)
    ensures var first := Take(Buffered(Opened(map[]), k, 0, now, interval));
            var second := Take(Buffered(first, k, 1, now, interval));
            && second.inflight == [map[k := 0], map[k := 1]]
            && var s := Write(Write(second, 1), 0);
            s.db == map[k := 0] && s.inflight == [] && s.pending == map[]
  {
    var first := Take(Buffered(Opened(map[]), k, 0, now, interval));
    var second := Take(Buffered(first, k, 1, now, interval));
    assert first.inflight == [map[k := 0]];
    assert Write(second, 1).inflight == [map[k := 0]];
  }

  lemma SwapIsHarmless<V>(db: map<Key, V>, b: map<Key, V>, older: map<Key, V>, later: map<Key, V>)
    ensures db + b + older + later == db + older + b + later
       <==> forall k :: k in b && k in older && k !in later ==> older[k] == b[k]
  {
    var after, before := db + b + older + later, db + older + b + later;
    if k :| k in b && k in older && k !in later && older[k] != b[k] {
      assert before[k] == b[k] && after[k] == older[k];
    } else {
      assert forall k :: k in before ==> before[k] == after[k];
      assert before.Keys == after.Keys;
    }
  }

  lemma StepAgrees<V>(s: Buffer<V>, op: Op<V>, interval: Duration)
    requires !s.closed && (op.Writing? ==> op.i == 0)
    ensures View(Do(s, op, interval)) == if op.Saving? then View(s)[op.key := op.value] else View(s)
  {
    match op
    case Saving(k, v, now) =>
      SavedOnTop(s.db + Merge(s.inflight), s.pending, k, v);
    case Firing =>
    case Taking =>
      MergeAppends(s.inflight, [s.pending]);
      MergeOne(s.pending);
      Associative(s.db, Merge(s.inflight), s.pending);
      NothingOnTop(s.db + (Merge(s.inflight) + s.pending));
      assert View(Take(s)) == View(s);
    case Writing(i) =>
      if s.inflight != [] {
        assert s.inflight[..0] == [];
        assert Merge<V>([]) == map[];
        WriteKeepsViewExactly(s, 0);
      }
  }

  lemma SavedOnTop<V>(m: map<Key, V>, pending: map<Key, V>, k: Key, v: V)
    ensures m + pending[k := v] == (m + pending)[k := v]
  {
  }

  /** At every moment the database under the batches in flight under the pending batch is what a
      direct store would hold. */
  lemma {:induction false} BufferAgreesWithDirectStore<V>(db: map<Key, V>, ops: seq<Op<V>>, interval: Duration)
    requires OldestFirst(ops)
    ensures var s := DoAll(Opened(db), ops, interval); View(s) == Direct(db, ops) && !s.closed
    decreases |ops|
  {
    if ops == [] {
      assert View(Opened(db)) == db;
    } else {
      var front := ops[..|ops| - 1];
      BufferAgreesWithDirectStore(db, front, interval);
      StepAgrees(DoAll(Opened(db), front, interval), ops[|ops| - 1], interval);
    }
  }

  // ---------------------------------------------------------------- closing

  /** Closing after the timer was stopped: the closer's own batch, once taken, and whether it is written.
      Between its critical sections timer functions that have fired take and write theirs. */
  datatype Closing<V> = Closing(buffer: Buffer<V>, own: Option<map<Key, V>>, flushed: bool)

  datatype CloseEvent = OthersTake | OthersWrite(i: nat) | OwnTake | OwnWrite | MarkClosed

  /** An event that is not possible yet changes nothing. */
  function Proceed<V>(c: Closing<V>, e: CloseEvent): Closing<V> {
    var s := c.buffer;
    match e
    case OthersTake => if s.fired > 0 then c.(buffer := TakeFired(s)) else c
    case OthersWrite(i) => if i < |s.inflight| then c.(buffer := Write(s, i)) else c
    case OwnTake => if c.own.None? then c.(own := Some(s.pending), buffer := s.(pending := map[])) else c
    case OwnWrite =>
      if c.own.Some? && !c.flushed
      then c.(buffer := s.(db := if s.closed then s.db else s.db + c.own.value), flushed := true) else c
    case MarkClosed => if c.flushed then c.(buffer := s.(closed := true)) else c
  }

  function ProceedAll<V>(c: Closing<V>, es: seq<CloseEvent>): Closing<V>
    decreases |es|
  {
    if es == [] then c else ProceedAll(Proceed(c, es[0]), es[1..])
  }

  function BeginClose<V>(s: Buffer<V>): Closing<V> {
    Closing(s, None, false)
  }

  /** The batches that other flushes hold, or may still take away from the closer. */
  function OthersBatches<V>(s: Buffer<V>): seq<map<Key, V>> {
    if s.fired > 0 then s.inflight + [s.pending] else s.inflight
  }

  ghost predicate Stored<V>(m: map<Key, V>, k: Key, v: V) {
    k in m && m[k] == v
  }

  /** No outstanding flush matters: each of its values is what the view has, and is already in the
      database or sure to be written by the closer. */
  ghost predicate NothingAtStake<V>(s: Buffer<V>) {
    forall i, k :: 0 <= i < |OthersBatches(s)| && k in OthersBatches(s)[i] ==> ValueIsSafe(s, k, OthersBatches(s)[i][k])
  }

  ghost predicate ValueIsSafe<V>(s: Buffer<V>, k: Key, v: V) {
    Stored(View(s), k, v) && ((s.fired == 0 && k in s.pending) || Stored(s.db, k, v))
  }

  lemma {:induction false} MergedFromSome<V>(bs: seq<map<Key, V>>, k: Key)
    requires k in Merge(bs)
    ensures exists i :: 0 <= i < |bs| && Stored(bs[i], k, Merge(bs)[k])
    decreases |bs|
  {
    var front, last := bs[..|bs| - 1], bs[|bs| - 1];
    if k in last {
      assert Stored(bs[|bs| - 1], k, Merge(bs)[k]);
    } else {
      MergedFromSome(front, k);
      var i :| 0 <= i < |front| && Stored(front[i], k, Merge(front)[k]);
      assert Stored(bs[i], k, Merge(bs)[k]);
    }
  }

  ghost predicate Agrees<V>(m: map<Key, V>, view: map<Key, V>) {
    forall k :: k in m ==> Stored(view, k, m[k])
  }

  /** What holds all through a close with nothing at stake. */
  ghost predicate Closable<V>(s: Buffer<V>, c: Closing<V>) {
    var v, t := View(s), c.buffer;
    && (forall i :: 0 <= i < |t.inflight| ==> Agrees(t.inflight[i], v))
    && Agrees(t.pending, v) && (c.own.Some? ==> Agrees(c.own.value, v))
    && (forall k :: k in t.db ==> Stored(v, k, t.db[k]) || Stored(s.db, k, t.db[k]))
    && (forall k :: k in v && Stored(s.db, k, v[k]) ==> Stored(t.db, k, v[k]))
    && t.db.Keys <= v.Keys
    && (t.closed ==> c.flushed)
    && (s.fired == 0 ==>
          && t.fired == 0 && (if c.own.None? then t.pending == s.pending && !c.flushed else c.own.value == s.pending)
          && (c.flushed ==> forall k :: k in s.pending ==> Stored(t.db, k, s.pending[k])))
  }

  lemma ClosableAtFirst<V>(s: Buffer<V>)
    requires NothingAtStake(s) && !s.closed
    ensures Closable(s, BeginClose(s))
  {
    forall i | 0 <= i < |s.inflight|
      ensures Agrees(s.inflight[i], View(s))
    {
      assert OthersBatches(s)[i] == s.inflight[i];
      forall k | k in s.inflight[i]
        ensures Stored(View(s), k, s.inflight[i][k])
      {
        assert ValueIsSafe(s, k, s.inflight[i][k]);
      }
    }
  }

  lemma WritingAgreed<V>(s: Buffer<V>, db: map<Key, V>, b: map<Key, V>)
    requires Agrees(b, View(s)) && db.Keys <= View(s).Keys
    requires forall k :: k in db ==> Stored(View(s), k, db[k]) || Stored(s.db, k, db[k])
    ensures forall k :: k in db + b ==> Stored(View(s), k, (db + b)[k]) || Stored(s.db, k, (db + b)[k])
    ensures forall k :: k in View(s) && Stored(db, k, View(s)[k]) ==> Stored(db + b, k, View(s)[k])
    ensures (db + b).Keys <= View(s).Keys
  {
  }

  lemma ClosableStep<V>(s: Buffer<V>, c: Closing<V>, e: CloseEvent)
    requires Closable(s, c)
    ensures Closable(s, Proceed(c, e))
  {
    match e
    case OthersTake =>
    case OthersWrite(i) =>
      if i < |c.buffer.inflight| { WritingAgreed(s, c.buffer.db, c.buffer.inflight[i]); }
    case OwnTake =>
    case OwnWrite =>
      if c.own.Some? { WritingAgreed(s, c.buffer.db, c.own.value); }
    case MarkClosed =>
  }

  lemma {:induction false} ClosableAll<V>(s: Buffer<V>, c: Closing<V>, es: seq<CloseEvent>)
    requires Closable(s, c)
    ensures Closable(s, ProceedAll(c, es))
    decreases |es|
  {
    if es != [] {
      ClosableStep(s, c, es[0]);
      ClosableAll(s, Proceed(c, es[0]), es[1..]);
    }
  }

  lemma ClosedAgrees<V>(s: Buffer<V>, c: Closing<V>)
    requires NothingAtStake(s) && Closable(s, c) && c.buffer.closed
    ensures c.buffer.db == View(s)
  {
    var v := View(s);
    forall k | k in v
      ensures Stored(c.buffer.db, k, v[k])
    {
      if k in s.pending {
        if s.fired > 0 {
          assert OthersBatches(s)[|s.inflight|] == s.pending;
          assert ValueIsSafe(s, k, s.pending[k]);
        }
      } else if k in Merge(s.inflight) {
        MergedFromSome(s.inflight, k);
        var i :| 0 <= i < |s.inflight| && Stored(s.inflight[i], k, v[k]);
        assert OthersBatches(s)[i] == s.inflight[i];
        assert ValueIsSafe(s, k, s.inflight[i][k]);
      }
    }
  }

  /** Whatever the outstanding flushes do meanwhile, once marked closed the database is the view. */
  ghost predicate CloseKeepsView<V>(s: Buffer<V>) {
    forall es :: ProceedAll(BeginClose(s), es).buffer.closed ==> ProceedAll(BeginClose(s), es).buffer.db == View(s)
  }

  lemma {:induction false} FirstEvent<V>(c: Closing<V>, e: CloseEvent, es: seq<CloseEvent>)
    ensures ProceedAll(c, [e] + es) == ProceedAll(Proceed(c, e), es)
  {
    assert ([e] + es)[1..] == es;
  }

  lemma {:induction false} ThreeEvents<V>(c: Closing<V>, a: CloseEvent, b: CloseEvent, d: CloseEvent)
    ensures ProceedAll(c, [a, b, d]) == Proceed(Proceed(Proceed(c, a), b), d)
  {
    assert [a, b, d] == [a] + ([b] + ([d] + []));
    FirstEvent(c, a, [b] + ([d] + []));
    FirstEvent(Proceed(c, a), b, [d] + []);
    FirstEvent(Proceed(Proceed(c, a), b), d, []);
  }

  lemma {:induction false} FourEvents<V>(c: Closing<V>, a: CloseEvent, b: CloseEvent, d: CloseEvent, e: CloseEvent)
    ensures ProceedAll(c, [a, b, d, e]) == Proceed(Proceed(Proceed(Proceed(c, a), b), d), e)
  {
    assert [a, b, d, e] == [a] + [b, d, e];
    FirstEvent(c, a, [b, d, e]);
    ThreeEvents(Proceed(c, a), b, d, e);
  }

  /** A taken batch may be written last before the mark ... */
  lemma LastWriterWins<V>(s: Buffer<V>, i: nat)
    requires !s.closed && i < |s.inflight|
    ensures var t := ProceedAll(BeginClose(s), [OwnTake, OwnWrite, OthersWrite(i), MarkClosed]).buffer;
            t.closed && t.db == s.db + s.pending + s.inflight[i]
  {
    FourEvents(BeginClose(s), OwnTake, OwnWrite, OthersWrite(i), MarkClosed);
  }

  /** ... a timer's function that has fired may take the pending batch away and write it too late ... */
  lemma FiredMayBeTooLate<V>(s: Buffer<V>)
    requires !s.closed && s.fired > 0
    ensures var t := ProceedAll(BeginClose(s), [OthersTake, OwnTake, OwnWrite, MarkClosed]).buffer;
            t.closed && t.db == s.db
  {
    FourEvents(BeginClose(s), OthersTake, OwnTake, OwnWrite, MarkClosed);
    NothingOnTop(s.db);
  }

  /** ... and all batches taken may be written too late. */
  lemma OthersMayBeTooLate<V>(s: Buffer<V>)
    requires !s.closed
    ensures var t := ProceedAll(BeginClose(s), [OwnTake, OwnWrite, MarkClosed]).buffer;
            t.closed && t.db == s.db + s.pending
  {
    ThreeEvents(BeginClose(s), OwnTake, OwnWrite, MarkClosed);
  }

  /** A value that is not safe is lost by one of these schedules. */
  lemma UnsafeValueIsLost<V>(s: Buffer<V>, i: nat, k: Key)
    requires !s.closed && i < |OthersBatches(s)| && k in OthersBatches(s)[i]
    requires !ValueIsSafe(s, k, OthersBatches(s)[i][k])
    ensures !CloseKeepsView(s)
  {
    var v := OthersBatches(s)[i][k];
    if !Stored(View(s), k, v) {
      assert i < |s.inflight| && OthersBatches(s)[i] == s.inflight[i];
      LastWriterWins(s, i);
      assert Stored(s.db + s.pending + s.inflight[i], k, v);
    } else if s.fired > 0 {
      FiredMayBeTooLate(s);
    } else {
      OthersMayBeTooLate(s);
    }
  }

  /** Once the timer is stopped, closing keeps everything under every schedule of the outstanding
      flushes exactly if none of their values is at stake. */
  lemma CloseKeepsViewExactly<V>(s: Buffer<V>)
    requires !s.closed
    ensures CloseKeepsView(s) <==> NothingAtStake(s)
  {
    if NothingAtStake(s) {
      forall es | ProceedAll(BeginClose(s), es).buffer.closed
        ensures ProceedAll(BeginClose(s), es).buffer.db == View(s)
      {
        ClosableAtFirst(s);
        ClosableAll(s, BeginClose(s), es);
        ClosedAgrees(s, ProceedAll(BeginClose(s), es));
      }
    } else {
      var i, k :| 0 <= i < |OthersBatches(s)| && k in OthersBatches(s)[i] && !ValueIsSafe(s, k, OthersBatches(s)[i][k]);
      UnsafeValueIsLost(s, i, k);
    }
  }

  /** With no flush outstanding, not even one whose timer has fired, a close in time leaves exactly
      the direct store in the database, and later flushes change nothing. */
  lemma {:induction false} CloseWritesEverything<V>(db: map<Key, V>, ops: seq<Op<V>>, interval: Duration,
                                                    es: seq<CloseEvent>)
    requires OldestFirst(ops)
    requires var s := DoAll(Opened(db), ops, interval); s.inflight == [] && s.fired == 0
    ensures var t := ProceedAll(BeginClose(Stop(DoAll(Opened(db), ops, interval), false)), es).buffer;
            && (t.closed ==> t.db == Direct(db, ops))
            && forall i :: 0 <= i < |t.inflight| && t.closed ==> Write(t, i).db == t.db
  {
    BufferAgreesWithDirectStore(db, ops, interval);
    var s := Stop(DoAll(Opened(db), ops, interval), false);
    CloseKeepsViewExactly(s);
  }

  /** A timer that has fired and not taken its batch: the save it was armed for is lost when its
      function takes the batch before the closer and writes it after. */
  lemma CloseCanLoseAFiredSave(k: Key, now: Time, interval: Duration)
    ensures var s := Stop(Fire(Buffered(Opened(map[]), k, 1, now, interval)), false);
            && s.inflight == [] && View(s) == map[k := 1]
            && var t := ProceedAll(BeginClose(s), [OthersTake, OwnTake, OwnWrite, MarkClosed]).buffer;
            t.closed && t.db == map[] && |t.inflight| == 1 && Write(t, 0).db == map[]
  {
    var s := Stop(Fire(Buffered(Opened(map[]), k, 1, now, interval)), false);
    assert Merge<int>([]) == map[];
    FourEvents(BeginClose(s), OthersTake, OwnTake, OwnWrite, MarkClosed);
  }

  /** A newer value pending is no protection: the older flush may write between the closer's own
      flush and its mark. */
  lemma CloseCanPutBackAnOldValue(k: Key, now: Time, interval: Duration)
    ensures Buffered(TakeFired(Fire(Buffered(Opened(map[]), k, 0, now, interval))), k, 1, now, interval) ==
            OldInFlight(k, Some(now + interval))
    ensures View(OldInFlight(k, None)) == map[k := 1]
    ensures var c := BeginClose(OldInFlight(k, None));
            var t := ProceedAll(c, [OwnTake, OwnWrite, OthersWrite(0), MarkClosed]).buffer;
            t.closed && t.db == map[k := 0]
  {
    OldIsTaken(k, now, interval);
    OldIsHidden(k);
    LastWriterWins(OldInFlight(k, None), 0);
    SameKey(k, 1, 0);
  }

  lemma OldIsTaken(k: Key, now: Time, interval: Duration)
    ensures Buffered(TakeFired(Fire(Buffered(Opened(map[]), k, 0, now, interval))), k, 1, now, interval) ==
            OldInFlight(k, Some(now + interval))
  {
    var empty: map<Key, int>, batch := map[], map[k := 0];
    var first := TakeFired(Fire(Buffered(Opened(empty), k, 0, now, interval)));
    assert first.inflight == [batch];
  }

  lemma OldIsHidden(k: Key)
    ensures View(OldInFlight(k, None)) == map[k := 1]
  {
    var batch: map<Key, int> := map[k := 0];
    MergeOne(batch);
    SameKey(k, 0, 1);
  }

  /** Value 0 is taken and not written, value 1 is pending. */
  function OldInFlight(k: Key, timer: Option<Time>): Buffer<int> {
    Buffer(map[], [map[k := 0]], map[k := 1], timer, 0, false)
  }

  lemma SameKey<V>(k: Key, v: V, w: V)
    ensures map[] + map[k := v] + map[k := w] == map[k := w]
  {
  }

  /** Closing with nothing running beside it. */
  function Closed<V>(s: Buffer<V>, late: bool): Buffer<V> {
    Flush(Stop(s, late)).(closed := true)
  }

  lemma UndisturbedClose<V>(s: Buffer<V>, late: bool)
    requires !s.closed
    ensures ProceedAll(BeginClose(Stop(s, late)), [OwnTake, OwnWrite, MarkClosed]).buffer == Closed(s, late)
  {
    var t := Stop(s, late);
    ThreeEvents(BeginClose(t), OwnTake, OwnWrite, MarkClosed);
    assert Flush(t).inflight == t.inflight;
  }

  // ---------------------------------------------------------------- no save waits forever

  datatype Request = Request(at: Time, key: Key)

  /** Time passes to `t`: a timer due by then fires, and its flush completes at once. */
  function Advance(s: Buffer<nat>, t: Time): Buffer<nat> {
    if s.timer.Some? && s.timer.value <= t then Write(TakeFired(Fire(s)), |s.inflight|) else s
  }

  /** The buffer after a list of saves; the i-th save stores the number i. */
  function AfterSaves(db: map<Key, nat>, reqs: seq<Request>, interval: Duration): Buffer<nat> {
    if reqs == [] then Opened(db)
    else
      var n := |reqs| - 1;
      Buffered(Advance(AfterSaves(db, reqs[..n], interval), reqs[n].at), reqs[n].key, n, reqs[n].at, interval)
  }

  predicate InOrder(reqs: seq<Request>) {
    forall i, j :: 0 <= i < j < |reqs| ==> reqs[i].at <= reqs[j].at
  }

  /** What a table holds for the key of save i is that save or a newer one of the same key. */
  predicate Newer(m: map<Key, nat>, reqs: seq<Request>, i: nat)
    requires i < |reqs|
  {
    var k := reqs[i].key;
    k in m && i <= m[k] < |reqs| && reqs[m[k]].key == k
  }

  /** Save i is in the database and not overtaken by an older one, or pending with a timer due in time. */
  predicate Handled(s: Buffer<nat>, reqs: seq<Request>, i: nat, interval: Duration)
    requires i < |reqs|
  {
    || (Newer(s.db, reqs, i) && (reqs[i].key in s.pending ==> Newer(s.pending, reqs, i)))
    || (Newer(s.pending, reqs, i) && s.timer.Some? && s.timer.value <= reqs[i].at + interval)
  }

  ghost predicate AllHandled(s: Buffer<nat>, reqs: seq<Request>, interval: Duration) {
    && s.inflight == [] && !s.closed
    && (s.timer.Some? ==> reqs != [] && s.timer.value <= reqs[|reqs| - 1].at + interval)
    && (s.pending != map[] ==> s.timer.Some?)
    && forall i :: 0 <= i < |reqs| ==> Handled(s, reqs, i, interval)
  }

  lemma AdvancedDb(s: Buffer<nat>, t: Time)
    requires s.inflight == [] && !s.closed && s.timer.Some? && s.timer.value <= t
    ensures var a := Advance(s, t);
            a.db == s.db + s.pending && a.inflight == [] && a.pending == map[] && a.timer == None && !a.closed
  {
  }

  lemma AdvanceKeepsHandled(s: Buffer<nat>, reqs: seq<Request>, interval: Duration, t: Time)
    requires AllHandled(s, reqs, interval)
    ensures AllHandled(Advance(s, t), reqs, interval)
  {
    if s.timer.Some? && s.timer.value <= t {
      AdvancedDb(s, t);
      forall i | 0 <= i < |reqs|
        ensures Handled(Advance(s, t), reqs, i, interval)
      {
        assert Handled(s, reqs, i, interval);
      }
    }
  }

  lemma SaveKeepsHandled(s: Buffer<nat>, reqs: seq<Request>, interval: Duration)
    requires reqs != [] && InOrder(reqs)
    requires AllHandled(s, reqs[..|reqs| - 1], interval)
    ensures var n := |reqs| - 1; AllHandled(Buffered(s, reqs[n].key, n, reqs[n].at, interval), reqs, interval)
  {
    var n := |reqs| - 1;
    var front := reqs[..n];
    var t := Buffered(s, reqs[n].key, n, reqs[n].at, interval);
    forall i | 0 <= i < n
      ensures Handled(t, reqs, i, interval)
    {
      assert front[i] == reqs[i] && Handled(s, front, i, interval);
    }
    assert Newer(t.pending, reqs, n);
  }

  lemma {:induction false} SavesAreHandled(db: map<Key, nat>, reqs: seq<Request>, interval: Duration)
    requires InOrder(reqs)
    ensures AllHandled(AfterSaves(db, reqs, interval), reqs, interval)
    decreases |reqs|
  {
    if reqs != [] {
      var n := |reqs| - 1;
      SavesAreHandled(db, reqs[..n], interval);
      AdvanceKeepsHandled(AfterSaves(db, reqs[..n], interval), reqs[..n], interval, reqs[n].at);
      SaveKeepsHandled(Advance(AfterSaves(db, reqs[..n], interval), reqs[n].at), reqs, interval);
    }
  }

  /** However many saves follow, a value saved at time t, or a newer one saved under the same key,
      is in the database by t + interval. */
  lemma {:induction false} NoSaveStarves(db: map<Key, nat>, reqs: seq<Request>, interval: Duration, i: nat, t: Time)
    requires InOrder(reqs) && i < |reqs| && reqs[i].at + interval <= t
    ensures Newer(Advance(AfterSaves(db, reqs, interval), t).db, reqs, i)
  {
    SavesAreHandled(db, reqs, interval);
    var s := AfterSaves(db, reqs, interval);
    assert Handled(s, reqs, i, interval);
    if s.timer.Some? && s.timer.value <= t {
      AdvancedDb(s, t);
    }
  }

  /** When the flushes between the saves were due. */
  function FlushTimes(db: map<Key, nat>, reqs: seq<Request>, interval: Duration): seq<Time> {
    if reqs == [] then []
    else
      var n := |reqs| - 1;
      var timer := AfterSaves(db, reqs[..n], interval).timer;
      FlushTimes(db, reqs[..n], interval) + if timer.Some? && timer.value <= reqs[n].at then [timer.value] else []
  }

  lemma AdvanceThenSave(s: Buffer<nat>, r: Request, n: nat, interval: Duration)
    ensures var t := Buffered(Advance(s, r.at), r.key, n, r.at, interval);
            if s.timer.Some? && s.timer.value > r.at then t.timer == s.timer && t.db == s.db
            else t.timer == Some(r.at + interval) && (s.timer.None? ==> t.db == s.db)
  {
  }

  /** The flushes, and the timer of the next one, are at least an interval apart. */
  ghost predicate Apart(times: seq<Time>, timer: Option<Time>, interval: Duration) {
    && (forall i :: 0 < i < |times| ==> times[i] - times[i - 1] >= interval)
    && (timer.None? ==> times == [])
    && (times != [] && timer.Some? ==> timer.value - times[|times| - 1] >= interval)
  }

  lemma ApartOneMore(times: seq<Time>, timer: Option<Time>, at: Time, interval: Duration)
    requires Apart(times, timer, interval)
    ensures if timer.Some? && timer.value <= at then Apart(times + [timer.value], Some(at + interval), interval)
            else Apart(times, if timer.Some? then timer else Some(at + interval), interval)
  {
  }

  lemma {:induction false} FlushTimesOneMore(db: map<Key, nat>, reqs: seq<Request>, interval: Duration)
    requires reqs != []
    ensures var n := |reqs| - 1;
            var s, times := AfterSaves(db, reqs[..n], interval), FlushTimes(db, reqs[..n], interval);
            var t, times' := AfterSaves(db, reqs, interval), FlushTimes(db, reqs, interval);
            if s.timer.Some? && s.timer.value <= reqs[n].at
            then times' == times + [s.timer.value] && t.timer == Some(reqs[n].at + interval)
            else
              && times' == times && t.db == s.db
              && t.timer == if s.timer.Some? then s.timer else Some(reqs[n].at + interval)
  {
    var n := |reqs| - 1;
    AdvanceThenSave(AfterSaves(db, reqs[..n], interval), reqs[n], n, interval);
  }

  /** However fast the saves come, flushes are at least an interval apart, and the database changes with
      them only. */
  lemma {:induction false} SavesAreBatched(db: map<Key, nat>, reqs: seq<Request>, interval: Duration)
    ensures var times, s := FlushTimes(db, reqs, interval), AfterSaves(db, reqs, interval);
            && (forall i :: 0 < i < |times| ==> times[i] - times[i - 1] >= interval)
            && (times == [] ==> s.db == db)
            && Apart(times, s.timer, interval)
    ensures reqs != [] && FlushTimes(db, reqs, interval) == FlushTimes(db, reqs[..|reqs| - 1], interval) ==>
              AfterSaves(db, reqs, interval).db == AfterSaves(db, reqs[..|reqs| - 1], interval).db
    decreases |reqs|
  {
    if reqs != [] {
      var n := |reqs| - 1;
      SavesAreBatched(db, reqs[..n], interval);
      FlushTimesOneMore(db, reqs, interval);
      ApartOneMore(FlushTimes(db, reqs[..n], interval), AfterSaves(db, reqs[..n], interval).timer, reqs[n].at,
                   interval);
    }
  }

  // ---------------------------------------------------------------- the persister itself

  datatype Saved = TrackerSaved(tracker: TrackerState) | CheckSaved(check: CheckState)

  function Rows(checks: map<string, CheckState>): map<Key, Saved> {
    map k | k in Keys(checks.Keys) :: CheckSaved(checks[k.name])
  }

  function Keys(names: set<string>): (ks: set<Key>)
    ensures forall k :: k in ks <==> k.CheckKey? && k.name in names
  {
    set n | n in names :: CheckKey(n)
  }

  /** A batch, or the two tables, as one map. */
  function Contents(event: Option<TrackerState>, checks: map<string, CheckState>): map<Key, Saved> {
    if event.Some? then Rows(checks)[TrackerKey := TrackerSaved(event.value)] else Rows(checks)
  }

  lemma RowsOfMerged(c0: map<string, CheckState>, c1: map<string, CheckState>)
    ensures Rows(c0 + c1) == Rows(c0) + Rows(c1)
  {
    assert Rows(c0 + c1).Keys == (Rows(c0) + Rows(c1)).Keys;
  }

  lemma ContentsOfMerged(e0: Option<TrackerState>, c0: map<string, CheckState>, e1: Option<TrackerState>,
                         c1: map<string, CheckState>)
    ensures Contents(if e1.Some? then e1 else e0, c0 + c1) == Contents(e0, c0) + Contents(e1, c1)
  {
    RowsOfMerged(c0, c1);
    assert TrackerKey !in Rows(c1);
    if e1.Some? {
      SavedOnTop(Contents(e0, c0), Rows(c1), TrackerKey, TrackerSaved(e1.value));
      if e0.Some? {
        Overwritten(Rows(c0), Rows(c1), TrackerKey, TrackerSaved(e0.value), TrackerSaved(e1.value));
      }
    } else if e0.Some? {
      Beneath(Rows(c0), Rows(c1), TrackerKey, TrackerSaved(e0.value));
    }
  }

  lemma Overwritten<V>(a: map<Key, V>, b: map<Key, V>, k: Key, v: V, w: V)
    ensures (a[k := v] + b)[k := w] == (a + b)[k := w]
  {
  }

  lemma Beneath<V>(a: map<Key, V>, b: map<Key, V>, k: Key, v: V)
    requires k !in b
    ensures a[k := v] + b == (a + b)[k := v]
  {
  }

  lemma ContentsWithEvent(e: Option<TrackerState>, c: map<string, CheckState>, state: TrackerState)
    ensures Contents(Some(state), c) == Contents(e, c)[TrackerKey := TrackerSaved(state)]
  {
  }

  lemma ContentsWithCheck(e: Option<TrackerState>, c: map<string, CheckState>, name: string, state: CheckState)
    ensures Contents(e, c[name := state]) == Contents(e, c)[CheckKey(name) := CheckSaved(state)]
  {
    var left, right := Contents(e, c[name := state]), Contents(e, c)[CheckKey(name) := CheckSaved(state)];
    forall k
      ensures (k in left <==> k in right) && (k in left ==> left[k] == right[k])
    {
    }
  }

  lemma NoContents()
    ensures Contents(None, map[]) == map[]
  {
  }

  class SqlitePersister {
    const interval: Duration
    var eventTable: Option<TrackerState>
    var checkTable: map<string, CheckState>
    var closed: bool
    var pendingEventState: Option<TrackerState>
    var pendingCheckStates: map<string, CheckState>
    var debounceTimer: Option<Time>
    /** Timer functions that have started and not taken a batch, and batches not written yet. */
    ghost var fired: nat
    ghost var inflight: seq<map<Key, Saved>>

    ghost function Value(): Buffer<Saved>
      reads this
    {
      Buffer(Contents(eventTable, checkTable), inflight, Contents(pendingEventState, pendingCheckStates),
             debounceTimer, fired, closed)
    }

    /** An interval of 0 means one second. */
    constructor (interval: Duration, eventTable: Option<TrackerState>, checkTable: map<string, CheckState>)
      ensures Value() == Opened(Contents(eventTable, checkTable))
      ensures this.interval == if interval == 0 then SECOND else interval
    {
      this.interval := if interval == 0 then SECOND else interval;
      this.eventTable, this.checkTable, closed := eventTable, checkTable, false;
      pendingEventState, pendingCheckStates, debounceTimer := None, map[], None;
      fired, inflight := 0, [];
      NoContents();
    }

    method SaveEventTrackerState(state: TrackerState, now: Time)
      modifies this
      ensures Value() == Buffered(old(Value()), TrackerKey, TrackerSaved(state), now, interval)
      ensures pendingEventState == Some(state) && debounceTimer.Some?
    {
      ContentsWithEvent(pendingEventState, pendingCheckStates, state);
      pendingEventState := Some(state);
      ScheduleSave(now);
    }

    method SaveCheckState(checkName: string, state: CheckState, now: Time)
      modifies this
      ensures Value() == Buffered(old(Value()), CheckKey(checkName), CheckSaved(state), now, interval)
      ensures pendingCheckStates == old(pendingCheckStates)[checkName := state] && debounceTimer.Some?
    {
      ghost var before := Value();
      ContentsWithCheck(pendingEventState, pendingCheckStates, checkName, state);
      pendingCheckStates := pendingCheckStates[checkName := state];
      assert Value() == before.(pending := before.pending[CheckKey(checkName) := CheckSaved(state)]);
      ScheduleSave(now);
    }

    method ScheduleSave(now: Time)
      modifies this`debounceTimer
      ensures debounceTimer == if old(debounceTimer).Some? then old(debounceTimer) else Some(now + interval)
    {
      if debounceTimer.Some? {
        return;
      }
      debounceTimer := Some(now + interval);
    }

    /** The first half of a flush, under the buffer's lock. */
    method TakePending(ghost byTimer: bool) returns (event: Option<TrackerState>, checks: map<string, CheckState>)
      requires byTimer ==> fired > 0
      modifies this
      ensures Value() == if byTimer then TakeFired(old(Value())) else Take(old(Value()))
      ensures Contents(event, checks) == old(Value()).pending
    {
      event, checks := pendingEventState, pendingCheckStates;
      inflight := inflight + [Contents(event, checks)];
      fired := if byTimer then fired - 1 else fired;
      pendingEventState, pendingCheckStates := None, map[];
      NoContents();
    }

    /** The second half, under the database's lock; other flushes may run in between. */
    method WriteBatch(event: Option<TrackerState>, checks: map<string, CheckState>, ghost i: nat)
      requires i < |inflight| && inflight[i] == Contents(event, checks)
      modifies this
      ensures Value() == Write(old(Value()), i)
    {
      ContentsOfMerged(eventTable, checkTable, event, checks);
      inflight := inflight[..i] + inflight[i + 1..];
      if closed {
        return;
      }
      if event.Some? {
        eventTable := event;
      }
      WriteChecks(checks);
    }

    /** One row after another, each replacing the row of its name. */
    method WriteChecks(checks: map<string, CheckState>)
      modifies this`checkTable
      ensures checkTable == old(checkTable) + checks
    {
      var rest := checks.Keys;
      while rest != {}
        invariant rest <= checks.Keys
        invariant checkTable == old(checkTable) + map n | n in checks.Keys - rest :: checks[n]
        decreases rest
      {
        var n :| n in rest;
        checkTable := checkTable[n := checks[n]];
        rest := rest - {n};
      }
    }

    method FlushPending(ghost byTimer: bool)
      requires byTimer ==> fired > 0
      modifies this
      ensures Value() == Write(if byTimer then TakeFired(old(Value())) else Take(old(Value())), |old(inflight)|)
    {
      ghost var n := |inflight|;
      var event, checks := TakePending(byTimer);
      WriteBatch(event, checks, n);
    }

    /** The first critical section of the timer's function. */
    method Disarm()
      modifies this`debounceTimer, this`fired
      ensures Value() == Fire(old(Value()))
    {
      debounceTimer := None;
      fired := fired + 1;
    }

    /** The timer's function with nothing running beside it. */
    method OnTimer()
      modifies this
      ensures Value() == Write(TakeFired(Fire(old(Value()))), |old(inflight)|)
    {
      Disarm();
      FlushPending(true);
    }

    /** The first critical section of closing. `late`: the timer had expired, its function runs anyway. */
    method StopTimer(ghost late: bool)
      modifies this`debounceTimer, this`fired
      ensures Value() == Stop(old(Value()), late)
    {
      if debounceTimer.Some? {
        if late {
          fired := fired + 1;
        }
        debounceTimer := None;
      }
    }

    /** The last critical section of closing. */
    method MarkClosed()
      modifies this`closed
      ensures Value() == old(Value()).(closed := true)
    {
      if closed {
        return;
      }
      closed := true;
    }

    /** The three critical sections in turn; what may happen between them is `Proceed`. */
    method Close(ghost late: bool)
      modifies this
      ensures Value() == Closed(old(Value()), late)
    {
      StopTimer(late);
      FlushPending(false);
      MarkClosed();
    }
  }
}
