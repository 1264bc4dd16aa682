/** The store-and-forward queue for messages the broker cannot take (`src/offline_queue.rs`).
    The SQL table is the set of its rows; where SQL leaves the order of equal keys open, so
    does the model.  Clock samples are milliseconds and may go either way. */
module OfflineQueue {
  import opened Wrappers

  datatype Message = Message(
    id: nat, topic: string, payload: string, priority: nat, qos: nat, retain: bool,
    createdAt: int, retryCount: nat)

  // ---- The two orders ----

  /** `ORDER BY priority DESC, created_at ASC`: what is sent first. */
  predicate SentFirst(a: Message, b: Message) {
    a.priority > b.priority || (a.priority == b.priority && a.createdAt <= b.createdAt)
  }

  /** `ORDER BY priority ASC, created_at ASC`: what is evicted first. */
  predicate EvictedFirst(a: Message, b: Message) {
    a.priority < b.priority || (a.priority == b.priority && a.createdAt <= b.createdAt)
  }

  ghost predicate IsHead(rows: set<Message>, m: Message) {
    m in rows && forall r | r in rows :: SentFirst(m, r)
  }

  ghost predicate IsVictim(rows: set<Message>, m: Message) {
    m in rows && forall r | r in rows :: EvictedFirst(m, r)
  }

  lemma {:induction false} HeadExists(rows: set<Message>)
    requires rows != {}
    ensures exists m :: IsHead(rows, m)
    decreases |rows|
  {
    var a :| a in rows;
    if rows == {a} {
      assert IsHead(rows, a);
    } else {
      var rest := rows - {a};
      HeadExists(rest);
      var h :| IsHead(rest, h);
      var m := if SentFirst(h, a) then h else a;
      assert forall r | r in rows :: r == a || r in rest;
      assert IsHead(rows, m);
    }
  }

  lemma {:induction false} VictimExists(rows: set<Message>)
    requires rows != {}
    ensures exists m :: IsVictim(rows, m)
    decreases |rows|
  {
    var a :| a in rows;
    if rows == {a} {
      assert IsVictim(rows, a);
    } else {
      var rest := rows - {a};
      VictimExists(rest);
      var v :| IsVictim(rest, v);
      var m := if EvictedFirst(v, a) then v else a;
      assert forall r | r in rows :: r == a || r in rest;
      assert IsVictim(rows, m);
    }
  }

  /** `kept` is what can be left of `rows` after evicting up to `n`, worst first. */
  ghost predicate Evicts(rows: set<Message>, n: nat, kept: set<Message>) {
    && kept <= rows
    && |kept| == Max(|rows| - n, 0)
    && forall d, k | d in rows - kept && k in kept :: EvictedFirst(d, k)
  }

  /** Draining: each message sent is a head of what is left. */
  ghost predicate Drains(rows: set<Message>, sent: seq<Message>) {
    sent == [] || (IsHead(rows, sent[0]) && Drains(rows - {sent[0]}, sent[1..]))
  }

  /** A result of `ORDER BY … LIMIT n`. */
  ghost predicate IsBatch(rows: set<Message>, n: nat, batch: seq<Message>) {
    && |batch| == Min(n, |rows|)
    && (forall i, j | 0 <= i < j < |batch| :: batch[i] != batch[j] && SentFirst(batch[i], batch[j]))
    && (forall m | m in batch :: m in rows)
    && (forall m, r | m in batch && r in rows && r !in batch :: SentFirst(m, r))
  }

  ghost predicate UniqueIds(rows: set<Message>) {
    forall a, b | a in rows && b in rows && a.id == b.id :: a == b
  }

  function Unexpired(rows: set<Message>, maxAgeSecs: nat, now: int): set<Message> {
    if maxAgeSecs == 0 then rows
    else set m | m in rows && m.createdAt >= now - maxAgeSecs * 1000
  }

  /** The rows left by an acknowledgement. */
  function Acked(rows: set<Message>, id: nat): set<Message> {
    set m | m in rows && m.id != id
  }

  function Bump(m: Message, id: nat): Message {
    if m.id == id then m.(retryCount := m.retryCount + 1) else m
  }

  function BumpAll(rows: set<Message>, id: nat): set<Message> {
    set m | m in rows :: Bump(m, id)
  }

  class OfflineQueue {
    var rows: set<Message>
    var nextId: nat
    const maxSize: nat
    const maxAgeSecs: nat
    const maxDiskBytes: nat

    /** `AUTOINCREMENT` never reuses an id. */
    ghost predicate Valid()
      reads this
    {
      UniqueIds(rows) && forall m | m in rows :: m.id < nextId
    }

    /** Opens a file with the rows it holds, however many those are. */
    constructor (stored: set<Message>, nextId: nat, maxSize: nat, maxAgeSecs: nat, maxDiskBytes: nat)
      requires UniqueIds(stored) && forall m | m in stored :: m.id < nextId
      ensures Valid() && rows == stored && this.nextId == nextId
      ensures this.maxSize == maxSize && this.maxAgeSecs == maxAgeSecs
      ensures this.maxDiskBytes == maxDiskBytes
    {
      this.maxSize, this.maxAgeSecs, this.maxDiskBytes := maxSize, maxAgeSecs, maxDiskBytes;
      this.rows, this.nextId := stored, nextId;
    }

    /** `dbSize` is the size of the database file, as SQLite reports it. */
    method Enqueue(topic: string, payload: string, priority: nat, qos: nat, retain: bool,
                   dbSize: nat, now: int) returns (id: nat, ghost kept: set<Message>)
      requires Valid()
      modifies this
      ensures Valid()
      ensures id == old(nextId)
      ensures rows == kept + {Message(id, topic, payload, priority, qos, retain, now, 0)}
      ensures Evicts(old(rows), Evictions(|old(rows)|, maxSize, maxDiskBytes, dbSize), kept)
      ensures |rows| == |kept| + 1
      ensures |rows| <= Max(|old(rows)|, Max(maxSize, 1))
    {
      MakeRoom(dbSize);
      kept := rows;
      id := nextId;
      var m := Message(id, topic, payload, priority, qos, retain, now, 0);
      NewRow(rows, m);
      rows := rows + {m};
      nextId := nextId + 1;
    }

    /** What is evicted before a message is taken in. */
    method MakeRoom(dbSize: nat)
      requires Valid()
      modifies this`rows
      ensures Valid() && |rows| < Max(|old(rows)|, Max(maxSize, 1))
      ensures Evicts(old(rows), Evictions(|old(rows)|, maxSize, maxDiskBytes, dbSize), rows)
    {
      var currentSize := |rows|;
      if currentSize >= maxSize {
        EvictOne();
      }
      if maxDiskBytes > 0 && dbSize >= maxDiskBytes {
        ghost var once := rows;
        EvictForDiskSpace(Min(Max(currentSize / 10, 5), 50));
        EvictsCompose(old(rows), if currentSize >= maxSize then 1 else 0, once,
                      Min(Max(currentSize / 10, 5), 50), rows);
      }
    }

    method EvictOne()
      requires Valid()
      modifies this`rows
      ensures Valid() && Evicts(old(rows), 1, rows)
    {
      if rows != {} {
        VictimExists(rows);
        var v :| v in rows && forall r | r in rows :: EvictedFirst(v, r);
        rows := rows - {v};
      }
    }

    method EvictForDiskSpace(count: nat)
      requires Valid()
      modifies this`rows
      ensures Valid() && Evicts(old(rows), count, rows)
    {
      for i := 0 to count
        invariant Valid() && nextId == old(nextId) && Evicts(old(rows), i, rows)
      {
        ghost var before := rows;
        EvictOne();
        EvictsCompose(old(rows), i, before, 1, rows);
      }
    }

    /** The message to send next, if any; the table loses only what has expired. */
    method Peek(now: int) returns (head: Option<Message>)
      requires Valid()
      modifies this`rows
      ensures Valid() && rows == Unexpired(old(rows), maxAgeSecs, now)
      ensures head.None? <==> rows == {}
      ensures head.Some? ==> IsHead(rows, head.value)
    {
      CleanupExpired(now);
      if rows == {} {
        return None;
      }
      HeadExists(rows);
      var m :| m in rows && forall r | r in rows :: SentFirst(m, r);
      head := Some(m);
    }

    method PeekBatch(maxCount: nat, now: int) returns (batch: seq<Message>)
      requires Valid()
      modifies this`rows
      ensures Valid() && rows == Unexpired(old(rows), maxAgeSecs, now)
      ensures IsBatch(rows, maxCount, batch)
    {
      CleanupExpired(now);
      var left := rows;
      batch := [];
      while left != {} && |batch| < maxCount
        invariant rows == Unexpired(old(rows), maxAgeSecs, now) && Valid()
        invariant Batched(rows, left, batch) && |batch| <= maxCount
        decreases |left|
      {
        HeadExists(left);
        var m :| m in left && forall r | r in left :: SentFirst(m, r);
        BatchGrows(rows, left, batch, m);
        left := left - {m};
        batch := batch + [m];
      }
    }

    method Ack(id: nat) returns (deleted: bool)
      requires Valid()
      modifies this`rows
      ensures Valid() && rows == Acked(old(rows), id)
      ensures deleted <==> exists m :: m in old(rows) && m.id == id
    {
      var kept := Acked(rows, id);
      SubsetIsSmaller(kept, rows);
      deleted := kept != rows;
      rows := kept;
    }

    method AckBatch(ids: seq<nat>) returns (deleted: nat)
      requires Valid()
      modifies this`rows
      ensures Valid() && rows == set m | m in old(rows) && m.id !in ids
      ensures deleted == |old(rows)| - |rows|
    {
      if ids == [] {
        assert rows == set m | m in rows && m.id !in ids;
        return 0;
      }
      var kept := set m | m in rows && m.id !in ids;
      SubsetIsSmaller(kept, rows);
      deleted := |rows| - |kept|;
      rows := kept;
    }

    method Nack(id: nat)
      requires Valid()
      modifies this`rows
      ensures Valid() && rows == BumpAll(old(rows), id)
    {
      BumpAllKeepsSize(rows, id);
      BumpAllKeepsIds(rows, id);
      rows := set m | m in rows :: Bump(m, id);
    }

    method CleanupExpired(now: int)
      requires Valid()
      modifies this`rows
      ensures Valid() && rows == Unexpired(old(rows), maxAgeSecs, now)
    {
      if maxAgeSecs > 0 {
        var kept := set m | m in rows && m.createdAt >= now - maxAgeSecs * 1000;
        SubsetIsSmaller(kept, rows);
        rows := kept;
      }
    }
  }

  /** How many rows one enqueue evicts: one at capacity, and a tenth of the table (at least
      five, at most fifty) when the file is too large. */
  function Evictions(size: nat, maxSize: nat, maxDiskBytes: nat, dbSize: nat): nat {
    (if size >= maxSize then 1 else 0)
    + if maxDiskBytes > 0 && dbSize >= maxDiskBytes then Min(Max(size / 10, 5), 50) else 0
  }

  /** At capacity one row goes; if the file is too large, so do a tenth of the rows there were, but
      never fewer than five nor more than fifty. */
  lemma EvictionsAre(size: nat, maxSize: nat, maxDiskBytes: nat, dbSize: nat)
    ensures var atLimit, tooLarge := size >= maxSize, maxDiskBytes > 0 && dbSize >= maxDiskBytes;
      var forDisk := Evictions(size, maxSize, maxDiskBytes, dbSize) - if atLimit then 1 else 0;
      && (!tooLarge ==> forDisk == 0)
      && (tooLarge ==> 5 <= forDisk <= 50)
      && (tooLarge && 50 <= size < 500 ==> 0 <= size - 10 * forDisk < 10)
      && (tooLarge && size < 50 ==> forDisk == 5) && (tooLarge && size >= 500 ==> forDisk == 50)
  {
  }

  /** A nack raises the count of tries of that row by one, and leaves everything else. */
  lemma NackRaises(rows: set<Message>, id: nat)
    requires UniqueIds(rows)
    ensures forall m | m in rows && m.id != id :: m in BumpAll(rows, id)
    ensures forall m | m in rows && m.id == id :: m.(retryCount := m.retryCount + 1) in BumpAll(rows, id)
    ensures forall m | m in BumpAll(rows, id) :: exists r :: r in rows && r.id == m.id
    ensures |BumpAll(rows, id)| == |rows| && UniqueIds(BumpAll(rows, id))
  {
    forall m | m in rows ensures Bump(m, id) in BumpAll(rows, id) {
    }
    BumpAllKeepsSize(rows, id);
    BumpAllKeepsIds(rows, id);
  }

  /** The batch so far: the rows that are not left, in order of sending. */
  ghost predicate Batched(rows: set<Message>, left: set<Message>, batch: seq<Message>) {
    && left <= rows && |batch| + |left| == |rows|
    && (forall m :: m in batch <==> m in rows - left)
    && (forall i, j | 0 <= i < j < |batch| :: batch[i] != batch[j] && SentFirst(batch[i], batch[j]))
    && (forall m, r | m in batch && r in left :: SentFirst(m, r))
  }

  lemma BatchGrows(rows: set<Message>, left: set<Message>, batch: seq<Message>, m: Message)
    requires Batched(rows, left, batch) && IsHead(left, m)
    ensures Batched(rows, left - {m}, batch + [m])
  {
    var more := batch + [m];
    assert forall i | 0 <= i < |batch| :: batch[i] in batch && more[i] == batch[i];
  }

  lemma NewRow(rows: set<Message>, m: Message)
    requires UniqueIds(rows) && forall r | r in rows :: r.id < m.id
    ensures UniqueIds(rows + {m}) && |rows + {m}| == |rows| + 1
  {
    assert m !in rows;
  }

  lemma SubsetIsSmaller(a: set<Message>, b: set<Message>)
    requires a <= b
    ensures |a| <= |b| && (|a| == |b| ==> a == b)
  {
    assert b == a + (b - a);
  }

  /** Evicting in two goes is evicting once. */
  lemma EvictsCompose(rows: set<Message>, i: nat, mid: set<Message>, j: nat, kept: set<Message>)
    requires Evicts(rows, i, mid) && Evicts(mid, j, kept)
    ensures Evicts(rows, i + j, kept)
  {
    forall d, k | d in rows - kept && k in kept ensures EvictedFirst(d, k) {
      assert d in mid - kept || d in rows - mid;
    }
  }

  lemma BumpAllKeepsIds(rows: set<Message>, id: nat)
    requires UniqueIds(rows)
    ensures UniqueIds(BumpAll(rows, id))
    ensures forall m | m in BumpAll(rows, id) :: exists r :: r in rows && r.id == m.id
  {
    forall a, b | a in BumpAll(rows, id) && b in BumpAll(rows, id) && a.id == b.id ensures a == b {
      var a0 :| a0 in rows && Bump(a0, id) == a;
      var b0 :| b0 in rows && Bump(b0, id) == b;
    }
  }

  lemma {:induction false} BumpAllKeepsSize(rows: set<Message>, id: nat)
    requires UniqueIds(rows)
    ensures |BumpAll(rows, id)| == |rows|
    decreases |rows|
  {
    if rows != {} {
      var a :| a in rows;
      BumpAllKeepsSize(rows - {a}, id);
      BumpAllSplit(rows, a, id);
      forall r | r in rows - {a} ensures Bump(r, id) != Bump(a, id) {
        assert Bump(r, id).id == r.id != a.id;
      }
    }
  }

  lemma BumpAllSplit(rows: set<Message>, a: Message, id: nat)
    requires a in rows
    ensures BumpAll(rows, id) == BumpAll(rows - {a}, id) + {Bump(a, id)}
  {
    forall m | m in rows ensures Bump(m, id) in BumpAll(rows - {a}, id) + {Bump(a, id)} {
      if m != a {
        assert m in rows - {a};
      }
    }
  }

  // ---- Filling up: a streaming top-k ----

  ghost function Rows(msgs: seq<Message>): set<Message> {
    set m | m in msgs
  }

  /** One `Enqueue` of `m` without a disk limit. */
  ghost predicate Enqueues(maxSize: nat, before: set<Message>, m: Message, rows: set<Message>) {
    exists kept :: Evicts(before, Evictions(|before|, maxSize, 0, 0), kept) && rows == kept + {m}
  }

  /** A table that can be left after taking in `msgs`, oldest first, into a table that held
      `stored` when it was opened. */
  ghost predicate Stores(maxSize: nat, stored: set<Message>, msgs: seq<Message>, rows: set<Message>)
    decreases |msgs|
  {
    if msgs == [] then rows == stored
    else
      var prefix, newest := msgs[..|msgs| - 1], msgs[|msgs| - 1];
      exists before :: Stores(maxSize, stored, prefix, before) && Enqueues(maxSize, before, newest, rows)
  }

  /** What a table holds that held `stored` rows when it was opened: its limit, at least one, or
      as much as there was. */
  function Capacity(maxSize: nat, stored: nat): (capacity: nat)
    ensures capacity >= 1
  {
    Max(stored, Max(maxSize, 1))
  }

  /** The newest message is there, and of the earlier ones what a single eviction down to
      `capacity - 1` rows would have kept. */
  ghost predicate HoldsTheBest(capacity: nat, earlier: set<Message>, newest: Message, rows: set<Message>) {
    && newest in rows
    && Evicts(earlier, Max(|earlier| - (capacity - 1), 0), rows - {newest})
  }

  ghost predicate AllNew(stored: set<Message>, msgs: seq<Message>) {
    Distinct(msgs) && forall m | m in msgs :: m !in stored
  }

  lemma {:induction false} NewRows(stored: set<Message>, msgs: seq<Message>)
    requires AllNew(stored, msgs) && msgs != []
    ensures var prefix, last := msgs[..|msgs| - 1], msgs[|msgs| - 1];
            && AllNew(stored, prefix) && last !in stored + Rows(prefix)
            && stored + Rows(msgs) == stored + Rows(prefix) + {last}
  {
    var prefix, last := msgs[..|msgs| - 1], msgs[|msgs| - 1];
    assert forall i | 0 <= i < |prefix| :: prefix[i] == msgs[i] != last;
    assert msgs == prefix + [last];
  }

  /** After any number of enqueues the table holds the newest message and, of all the earlier
      ones, the stored ones among them, the most urgent, newest first among equals, as many as
      its capacity leaves room for: however many rounds of eviction there were, and however the
      clock went. */
  lemma {:induction false} KeepsTheBest(maxSize: nat, stored: set<Message>, msgs: seq<Message>, rows: set<Message>)
    requires msgs != [] && AllNew(stored, msgs) && Stores(maxSize, stored, msgs, rows)
    ensures HoldsTheBest(Capacity(maxSize, |stored|), stored + Rows(msgs[..|msgs| - 1]), msgs[|msgs| - 1], rows)
    decreases |msgs|
  {
    var prefix, newest := msgs[..|msgs| - 1], msgs[|msgs| - 1];
    NewRows(stored, msgs);
    var before :| Stores(maxSize, stored, prefix, before) && Enqueues(maxSize, before, newest, rows);
    if prefix == [] {
      FirstStep(maxSize, stored, newest, rows);
      assert stored + Rows(prefix) == stored;
    } else {
      KeepsTheBest(maxSize, stored, prefix, before);
      NewRows(stored, prefix);
      BestStep(maxSize, stored, stored + Rows(prefix[..|prefix| - 1]), prefix[|prefix| - 1], before, newest, rows);
    }
  }

  lemma FirstStep(maxSize: nat, stored: set<Message>, newest: Message, rows: set<Message>)
    requires newest !in stored && Enqueues(maxSize, stored, newest, rows)
    ensures HoldsTheBest(Capacity(maxSize, |stored|), stored, newest, rows)
  {
    var kept :| Evicts(stored, Evictions(|stored|, maxSize, 0, 0), kept) && rows == kept + {newest};
    assert rows - {newest} == kept;
  }

  lemma BestStep(maxSize: nat, stored: set<Message>, older: set<Message>, last: Message, before: set<Message>,
                 newest: Message, rows: set<Message>)
    requires stored <= older && last !in older && newest !in older + {last}
    requires HoldsTheBest(Capacity(maxSize, |stored|), older, last, before) && Enqueues(maxSize, before, newest, rows)
    ensures HoldsTheBest(Capacity(maxSize, |stored|), older + {last}, newest, rows)
  {
    var capacity := Capacity(maxSize, |stored|);
    var kept :| Evicts(before, Evictions(|before|, maxSize, 0, 0), kept) && rows == kept + {newest};
    SubsetIsSmaller(stored, older);
    assert |before| == |before - {last}| + 1;
    assert |before| >= maxSize <==> |before| >= capacity;
    ReplaceWorst(capacity, older, last, before, kept);
    assert rows - {newest} == kept;
  }

  /** How many rows there are: those opened with and one for each enqueue, up to the capacity. */
  lemma SizeIs(maxSize: nat, stored: set<Message>, msgs: seq<Message>, rows: set<Message>)
    requires AllNew(stored, msgs) && Stores(maxSize, stored, msgs, rows)
    ensures |rows| == Min(|stored| + |msgs|, Capacity(maxSize, |stored|))
  {
    if msgs != [] {
      KeepsTheBest(maxSize, stored, msgs, rows);
      AllNewSize(stored, msgs[..|msgs| - 1]);
      assert |rows| == |rows - {msgs[|msgs| - 1]}| + 1;
    }
  }

  lemma {:induction false} AllNewSize(stored: set<Message>, msgs: seq<Message>)
    requires AllNew(stored, msgs)
    ensures |stored + Rows(msgs)| == |stored| + |msgs|
    decreases |msgs|
  {
    if msgs == [] {
      assert stored + Rows(msgs) == stored;
    } else {
      NewRows(stored, msgs);
      AllNewSize(stored, msgs[..|msgs| - 1]);
    }
  }

  /** After any enqueues a table is within its limit exactly when it was within it when it was
      opened: a table that was opened with more never comes down by itself. */
  lemma LimitHoldsExactly(maxSize: nat, stored: set<Message>, msgs: seq<Message>, rows: set<Message>)
    requires msgs != [] && AllNew(stored, msgs) && Stores(maxSize, stored, msgs, rows)
    ensures |rows| <= Max(maxSize, 1) <==> |stored| <= Max(maxSize, 1)
  {
    SizeIs(maxSize, stored, msgs, rows);
  }

  /** A table of three rows, opened with a limit of one: an enqueue evicts one and adds one. */
  lemma ReopenedStaysOver(a: Message, b: Message, c: Message, m: Message) returns (rows: set<Message>)
    requires a != b && a != c && b != c && m !in {a, b, c}
    ensures Stores(1, {a, b, c}, [m], rows) && |rows| == 3
  {
    var stored, one := {a, b, c}, [m];
    VictimExists(stored);
    var v :| IsVictim(stored, v);
    rows := stored - {v} + {m};
    assert Evicts(stored, 1, stored - {v});
    assert Enqueues(1, stored, m, rows);
    assert one[..|one| - 1] == [] && Stores(1, stored, [], stored);
    SizeIs(1, stored, one, rows);
  }

  /** A limit of zero holds as much as a limit of one: the newest message. */
  lemma ZeroKeepsTheNewest(maxSize: nat, msgs: seq<Message>, rows: set<Message>)
    requires maxSize <= 1 && msgs != [] && Distinct(msgs) && Stores(maxSize, {}, msgs, rows)
    ensures rows == {msgs[|msgs| - 1]}
  {
    KeepsTheBest(maxSize, {}, msgs, rows);
    assert rows - {msgs[|msgs| - 1]} == {};
  }

  /** More urgent, or as urgent and newer. */
  ghost predicate Better(b: Message, m: Message) {
    b.priority > m.priority || (b.priority == m.priority && b.createdAt > m.createdAt)
  }

  /** With no two equal keys there is one such table: an earlier message is in it exactly when
      fewer than `capacity - 1` earlier ones are better. */
  lemma BestAreFewerThan(capacity: nat, earlier: set<Message>, newest: Message, rows: set<Message>, m: Message)
    requires capacity >= 1
    requires HoldsTheBest(capacity, earlier, newest, rows) && newest !in earlier && m in earlier
    requires forall a, b | a in earlier && b in earlier && a.priority == b.priority && a.createdAt == b.createdAt ::
               a == b
    ensures m in rows <==> |set b | b in earlier && Better(b, m)| < capacity - 1
  {
    var better := set b | b in earlier && Better(b, m);
    var held := rows - {newest};
    if m in rows {
      forall b | b in better ensures b in held {
        assert b !in held ==> EvictedFirst(b, m);
        assert b != m;
      }
      SubsetIsSmaller(better, held - {m});
    } else {
      SubsetOfRows(held, earlier, m);
      assert forall k | k in held :: EvictedFirst(m, k);
      SubsetIsSmaller(held, better);
    }
  }

  /** One enqueue: what was kept of the older rows, with the row after them, and then evicted
      down for the next, is what is kept of all of these. */
  lemma ReplaceWorst(capacity: nat, older: set<Message>, last: Message, before: set<Message>, kept: set<Message>)
    requires capacity >= 1 && last in before && last !in older
    requires Evicts(older, Max(|older| - (capacity - 1), 0), before - {last})
    requires Evicts(before, if |before| >= capacity then 1 else 0, kept)
    ensures Evicts(older + {last}, Max(|older + {last}| - (capacity - 1), 0), kept)
  {
    var held := before - {last};
    assert before == held + {last} && |before| == |held| + 1;
    forall d, k | d in older + {last} - kept && k in kept ensures EvictedFirst(d, k) {
      if d !in before && k == last {
        // A row was dropped before, so the table was full and something makes room now.
        assert |held| < |older| by {
          SubsetOfRows(held, older, d);
        }
        assert |kept| < |before|;
        SubsetProper(kept, before);
        var v :| v in before - kept;
        assert EvictedFirst(d, v) && EvictedFirst(v, last);
      }
    }
  }

  lemma SubsetOfRows(a: set<Message>, b: set<Message>, d: Message)
    requires a <= b && d in b && d !in a
    ensures |a| < |b|
  {
    assert b == a + (b - a) && d in b - a;
  }

  lemma SubsetProper(a: set<Message>, b: set<Message>)
    requires a <= b && |a| < |b|
    ensures exists v :: v in b - a
  {
    assert b == a + (b - a);
    assert b - a != {};
  }

  // ---- Emptying: a priority drain ----

  lemma {:induction false} DrainedAreRows(rows: set<Message>, sent: seq<Message>)
    requires Drains(rows, sent)
    ensures |sent| <= |rows|
    ensures Rows(sent) <= rows && |Rows(sent)| == |sent|
  {
    if sent != [] {
      var rest := sent[1..];
      DrainedAreRows(rows - {sent[0]}, rest);
      assert Rows(sent) == {sent[0]} + Rows(rest);
    }
  }

  /** A batch of `n` and `n` single peek-and-ack steps deliver the same: every batch is such a
      drain, and every such drain is a batch. */
  lemma {:induction false} BatchIsDrainExactly(rows: set<Message>, n: nat, sent: seq<Message>)
    ensures IsBatch(rows, n, sent) <==> Drains(rows, sent) && |sent| == Min(n, |rows|)
    decreases |sent|
  {
    if sent != [] {
      var head, rest := sent[0], sent[1..];
      if |sent| == Min(n, |rows|) {
        BatchIsDrainExactly(rows - {head}, n - 1, rest);
        if IsBatch(rows, n, sent) {
          BatchTail(rows, n, sent);
        }
        if Drains(rows, sent) {
          DrainIsBatch(rows, n, sent);
        }
      }
    }
  }

  lemma BatchTail(rows: set<Message>, n: nat, sent: seq<Message>)
    requires IsBatch(rows, n, sent) && sent != []
    ensures IsHead(rows, sent[0]) && IsBatch(rows - {sent[0]}, n - 1, sent[1..])
  {
    var head, rest := sent[0], sent[1..];
    forall r | r in rows ensures SentFirst(head, r) {
      if r in sent {
        var i :| 0 <= i < |sent| && sent[i] == r;
      }
    }
    assert forall i | 0 <= i < |rest| :: rest[i] == sent[i + 1];
    assert forall m | m in rest :: m in sent;
    forall m, r | m in rest && r in rows - {head} && r !in rest ensures SentFirst(m, r) {
      assert r !in sent;
    }
  }

  lemma DrainIsBatch(rows: set<Message>, n: nat, sent: seq<Message>)
    requires sent != [] && |sent| == Min(n, |rows|)
    requires IsHead(rows, sent[0]) && IsBatch(rows - {sent[0]}, n - 1, sent[1..])
    ensures IsBatch(rows, n, sent)
  {
    var head, rest := sent[0], sent[1..];
    assert sent == [head] + rest;
    assert forall m | m in rest :: m in rows - {head};
    forall i, j | 0 <= i < j < |sent| ensures sent[i] != sent[j] && SentFirst(sent[i], sent[j]) {
      assert sent[j] == rest[j - 1] && rest[j - 1] in rest;
      if i > 0 {
        assert sent[i] == rest[i - 1];
      }
    }
  }

  /** Acknowledging a row by its id removes that row alone. */
  lemma AckRemovesTheRow(rows: set<Message>, m: Message)
    requires UniqueIds(rows) && m in rows
    ensures Acked(rows, m.id) == rows - {m}
  {
  }

  ghost function Ids(msgs: seq<Message>): seq<nat> {
    seq(|msgs|, i requires 0 <= i < |msgs| => msgs[i].id)
  }

  lemma AckBatchRemovesTheRows(rows: set<Message>, batch: seq<Message>)
    requires UniqueIds(rows) && Rows(batch) <= rows
    ensures (set r | r in rows && r.id !in Ids(batch)) == rows - Rows(batch)
  {
    forall r | r in rows ensures r.id in Ids(batch) <==> r in Rows(batch) {
      if r.id in Ids(batch) {
        var i :| 0 <= i < |batch| && Ids(batch)[i] == r.id;
        assert batch[i] in Rows(batch);
      }
      if r in Rows(batch) {
        var i :| 0 <= i < |batch| && batch[i] == r;
        assert Ids(batch)[i] == r.id;
      }
    }
  }

  ghost function BumpSeq(sent: seq<Message>, id: nat): seq<Message> {
    seq(|sent|, i requires 0 <= i < |sent| => Bump(sent[i], id))
  }

  /** A `nack` changes the retry count of a row and nothing about the order of sending. */
  lemma {:induction false} NackChangesNoOrder(rows: set<Message>, id: nat, sent: seq<Message>)
    requires UniqueIds(rows) && forall m | m in sent :: m in rows
    ensures Drains(BumpAll(rows, id), BumpSeq(sent, id)) <==> Drains(rows, sent)
    decreases |sent|
  {
    if sent != [] {
      var head, rest := sent[0], sent[1..];
      assert BumpSeq(sent, id)[1..] == BumpSeq(rest, id);
      BumpHead(rows, id, head);
      if head in rest {
        // No drain sends a message twice.
        NotSentTwice(rows, sent);
        BumpSeqMember(rest, id, head);
        NotSentTwice(BumpAll(rows, id), BumpSeq(sent, id));
      } else {
        assert forall m | m in rest :: m in sent;
        NackChangesNoOrder(rows - {head}, id, rest);
      }
    }
  }

  lemma BumpSeqMember(sent: seq<Message>, id: nat, m: Message)
    requires m in sent
    ensures Bump(m, id) in BumpSeq(sent, id)
  {
    var i :| 0 <= i < |sent| && sent[i] == m;
    assert BumpSeq(sent, id)[i] == Bump(m, id);
  }

  lemma BumpHead(rows: set<Message>, id: nat, head: Message)
    requires UniqueIds(rows) && head in rows
    ensures IsHead(BumpAll(rows, id), Bump(head, id)) <==> IsHead(rows, head)
    ensures BumpAll(rows, id) - {Bump(head, id)} == BumpAll(rows - {head}, id)
  {
    assert forall r | r in rows :: Bump(r, id) in BumpAll(rows, id);
    forall r | r in rows - {head} ensures Bump(r, id) != Bump(head, id) {
      assert Bump(r, id).id == r.id != head.id;
    }
    BumpAllSplit(rows, head, id);
    if IsHead(BumpAll(rows, id), Bump(head, id)) {
      forall r | r in rows ensures SentFirst(head, r) {
        assert SentFirst(Bump(head, id), Bump(r, id));
      }
    }
  }

  lemma NotSentTwice(rows: set<Message>, sent: seq<Message>)
    requires sent != [] && sent[0] in sent[1..]
    ensures !Drains(rows, sent)
  {
    assert sent[0] in Rows(sent[1..]);
    if Drains(rows, sent) {
      DrainedAreRows(rows - {sent[0]}, sent[1..]);
    }
  }

  /** Repeated peek and ack with the clock samples of the peeks: `sent` is acknowledged one by
      one, and the last peek finds nothing. */
  ghost predicate DrainsOver(rows: set<Message>, maxAgeSecs: nat, clock: seq<int>, sent: seq<Message>)
    requires |clock| == |sent| + 1
    decreases |sent|
  {
    var live := Unexpired(rows, maxAgeSecs, clock[0]);
    if sent == [] then live == {}
    else IsHead(live, sent[0]) && DrainsOver(Acked(live, sent[0].id), maxAgeSecs, clock[1..], sent[1..])
  }

  /** At some peek it was too old. */
  ghost predicate HadExpired(m: Message, maxAgeSecs: nat, clock: seq<int>) {
    maxAgeSecs > 0 && exists i :: 0 <= i < |clock| && m.createdAt < clock[i] - maxAgeSecs * 1000
  }

  lemma ExpiredLater(m: Message, maxAgeSecs: nat, clock: seq<int>)
    requires clock != [] && HadExpired(m, maxAgeSecs, clock[1..])
    ensures HadExpired(m, maxAgeSecs, clock)
  {
    var i :| 0 <= i < |clock| - 1 && m.createdAt < clock[1..][i] - maxAgeSecs * 1000;
    assert clock[i + 1] == clock[1..][i];
  }

  /** What is sent was there, and had not expired when it was looked for. */
  lemma {:induction false} DrainedAreLive(rows: set<Message>, maxAgeSecs: nat, clock: seq<int>, sent: seq<Message>)
    requires UniqueIds(rows) && |clock| == |sent| + 1 && DrainsOver(rows, maxAgeSecs, clock, sent)
    ensures forall i | 0 <= i < |sent| :: sent[i] in rows
    ensures maxAgeSecs > 0 ==> forall i | 0 <= i < |sent| :: sent[i].createdAt >= clock[i] - maxAgeSecs * 1000
    decreases |sent|
  {
    if sent != [] {
      var live := Unexpired(rows, maxAgeSecs, clock[0]);
      AckRemovesTheRow(live, sent[0]);
      DrainedAreLive(live - {sent[0]}, maxAgeSecs, clock[1..], sent[1..]);
      forall i | 0 < i < |sent|
        ensures sent[i] in rows && (maxAgeSecs > 0 ==> sent[i].createdAt >= clock[i] - maxAgeSecs * 1000)
      {
        assert sent[i] == sent[1..][i - 1] && clock[i] == clock[1..][i - 1];
      }
    }
  }

  /** Draining to the end delivers most urgent first and oldest first among equals, nothing
      twice, nothing that had expired when it was looked for, and everything except what had expired
      at some peek. */
  lemma {:induction false} DrainDeliversAll(rows: set<Message>, maxAgeSecs: nat, clock: seq<int>, sent: seq<Message>)
    requires UniqueIds(rows) && |clock| == |sent| + 1 && DrainsOver(rows, maxAgeSecs, clock, sent)
    ensures forall i, j | 0 <= i < j < |sent| ::
              sent[i] != sent[j] && sent[i].priority >= sent[j].priority
              && (sent[i].priority == sent[j].priority ==> sent[i].createdAt <= sent[j].createdAt)
    ensures forall i | 0 <= i < |sent| :: sent[i] in rows
    ensures maxAgeSecs > 0 ==> forall i | 0 <= i < |sent| :: sent[i].createdAt >= clock[i] - maxAgeSecs * 1000
    ensures forall m | m in rows && m !in sent :: HadExpired(m, maxAgeSecs, clock)
    decreases |sent|
  {
    var live := Unexpired(rows, maxAgeSecs, clock[0]);
    DrainedAreLive(rows, maxAgeSecs, clock, sent);
    if sent != [] {
      var head, rest := sent[0], sent[1..];
      AckRemovesTheRow(live, head);
      DrainDeliversAll(live - {head}, maxAgeSecs, clock[1..], rest);
      forall i, j | 0 <= i < j < |sent|
        ensures sent[i] != sent[j] && sent[i].priority >= sent[j].priority
        ensures sent[i].priority == sent[j].priority ==> sent[i].createdAt <= sent[j].createdAt
      {
        assert sent[j] == rest[j - 1] && rest[j - 1] in rest;
        if i > 0 {
          assert sent[i] == rest[i - 1];
        }
      }
      assert forall m | m in sent :: m == head || m in rest;
    }
    forall m | m in rows && m !in sent ensures HadExpired(m, maxAgeSecs, clock) {
      if m in live {
        ExpiredLater(m, maxAgeSecs, clock);
      } else {
        assert m.createdAt < clock[0] - maxAgeSecs * 1000;
      }
    }
  }

  // ---- First in, first out ----

  ghost predicate ClockRises(msgs: seq<Message>) {
    forall i, j | 0 <= i < j < |msgs| :: msgs[i].createdAt < msgs[j].createdAt
  }

  /** The messages of one priority, in order. */
  ghost function OfPriority(msgs: seq<Message>, p: nat): seq<Message> {
    if msgs == [] then []
    else
      OfPriority(msgs[..|msgs| - 1], p) + if msgs[|msgs| - 1].priority == p then [msgs[|msgs| - 1]] else []
  }

  lemma {:induction false} OfPriorityMembers(msgs: seq<Message>, p: nat)
    ensures forall m :: m in OfPriority(msgs, p) <==> m in msgs && m.priority == p
    decreases |msgs|
  {
    if msgs != [] {
      OfPriorityMembers(msgs[..|msgs| - 1], p);
      assert msgs == msgs[..|msgs| - 1] + [msgs[|msgs| - 1]];
    }
  }

  /** If within a priority the times rise, they rise in what is left of it. */
  lemma {:induction false} OfPriorityRises(msgs: seq<Message>, p: nat)
    requires forall i, j | 0 <= i < j < |msgs| && msgs[i].priority == msgs[j].priority ::
               msgs[i].createdAt < msgs[j].createdAt
    ensures ClockRises(OfPriority(msgs, p))
    decreases |msgs|
  {
    if msgs != [] {
      var earlier := msgs[..|msgs| - 1];
      OfPriorityRises(earlier, p);
      OfPriorityMembers(earlier, p);
      var o := OfPriority(earlier, p);
      forall i | 0 <= i < |o| && msgs[|msgs| - 1].priority == p
        ensures o[i].createdAt < msgs[|msgs| - 1].createdAt
      {
        assert o[i] in earlier;
        var k :| 0 <= k < |earlier| && earlier[k] == o[i];
        assert msgs[k] == o[i];
      }
    }
  }

  lemma LastIsLatest(x: seq<Message>, y: seq<Message>)
    requires x != [] && y != [] && ClockRises(x) && ClockRises(y) && forall m :: m in x <==> m in y
    ensures x[|x| - 1] == y[|y| - 1]
  {
    var a, b := x[|x| - 1], y[|y| - 1];
    assert a in y && b in x;
    var i :| 0 <= i < |x| && x[i] == b;
    var j :| 0 <= j < |y| && y[j] == a;
    assert a.createdAt <= b.createdAt && b.createdAt <= a.createdAt;
    assert j == |y| - 1;
  }

  lemma WithoutLast(x: seq<Message>)
    requires x != [] && ClockRises(x)
    ensures ClockRises(x[..|x| - 1])
    ensures forall m :: m in x[..|x| - 1] <==> m in x && m != x[|x| - 1]
  {
    var earlier, last := x[..|x| - 1], x[|x| - 1];
    assert x == earlier + [last];
    assert forall i | 0 <= i < |earlier| :: earlier[i] == x[i] && x[i].createdAt < last.createdAt;
  }

  /** Rising sequences of the same messages are the same. */
  lemma {:induction false} RisingIsDetermined(x: seq<Message>, y: seq<Message>)
    requires ClockRises(x) && ClockRises(y) && forall m :: m in x <==> m in y
    ensures x == y
    decreases |x|
  {
    assert x == [] <==> y == [] by {
      assert x != [] ==> x[0] in x;
      assert y != [] ==> y[0] in y;
    }
    if x != [] {
      LastIsLatest(x, y);
      WithoutLast(x);
      WithoutLast(y);
      var x0, y0 := x[..|x| - 1], y[..|y| - 1];
      forall m ensures m in x0 <==> m in y0 {
        assert m in x <==> m in y;
      }
      RisingIsDetermined(x0, y0);
      assert x == x[..|x| - 1] + [x[|x| - 1]] && y == y[..|y| - 1] + [y[|y| - 1]];
    }
  }

  lemma {:induction false} NothingEvicted(maxSize: nat, msgs: seq<Message>, rows: set<Message>)
    requires |msgs| <= maxSize && ClockRises(msgs) && Stores(maxSize, {}, msgs, rows)
    ensures rows == Rows(msgs)
    decreases |msgs|
  {
    if msgs != [] {
      var prefix, newest := msgs[..|msgs| - 1], msgs[|msgs| - 1];
      var before :| Stores(maxSize, {}, prefix, before) && Enqueues(maxSize, before, newest, rows);
      PrefixRises(msgs);
      NothingEvicted(maxSize, prefix, before);
      NothingEvictedNow(maxSize, msgs, rows);
    }
  }

  lemma NothingEvictedNow(maxSize: nat, msgs: seq<Message>, rows: set<Message>)
    requires 0 < |msgs| <= maxSize && ClockRises(msgs)
    requires Enqueues(maxSize, Rows(msgs[..|msgs| - 1]), msgs[|msgs| - 1], rows)
    ensures rows == Rows(msgs)
  {
    var prefix, newest := msgs[..|msgs| - 1], msgs[|msgs| - 1];
    PrefixRises(msgs);
    RisingSize(prefix);
    NothingGoes(maxSize, Rows(prefix), newest, rows);
    RowsOneMore(msgs);
  }

  lemma NothingGoes(maxSize: nat, before: set<Message>, newest: Message, rows: set<Message>)
    requires |before| < maxSize && Enqueues(maxSize, before, newest, rows)
    ensures rows == before + {newest}
  {
    var kept :| Evicts(before, Evictions(|before|, maxSize, 0, 0), kept) && rows == kept + {newest};
    NoneGoes(before, kept);
  }

  lemma RowsOneMore(msgs: seq<Message>)
    requires msgs != []
    ensures Rows(msgs) == Rows(msgs[..|msgs| - 1]) + {msgs[|msgs| - 1]}
  {
    assert msgs == msgs[..|msgs| - 1] + [msgs[|msgs| - 1]];
  }

  lemma SubsetOfAll(a: set<Message>, b: set<Message>)
    requires a <= b && |a| == |b|
    ensures a == b
  {
    assert b == a + (b - a);
  }

  lemma RisingIsNew(msgs: seq<Message>)
    requires ClockRises(msgs)
    ensures AllNew({}, msgs)
  {
  }

  /** Into an empty table with room for all, out of it without expiry: no message comes before a more
      urgent one, and within each priority they come out in the order in which they went in. */
  lemma FirstInFirstOut(maxSize: nat, msgs: seq<Message>, rows: set<Message>, clock: seq<int>, sent: seq<Message>)
    requires ClockRises(msgs) && |msgs| <= maxSize && Stores(maxSize, {}, msgs, rows) && UniqueIds(rows)
    requires |clock| == |sent| + 1 && DrainsOver(rows, 0, clock, sent)
    ensures forall i, j | 0 <= i < j < |sent| :: sent[i].priority >= sent[j].priority
    ensures forall p: nat :: OfPriority(sent, p) == OfPriority(msgs, p)
  {
    RisingIsNew(msgs);
    NothingEvicted(maxSize, msgs, rows);
    DrainDeliversAll(rows, 0, clock, sent);
    assert forall m :: m in sent <==> m in msgs by {
      assert forall m :: m in rows <==> m in msgs;
    }
    forall p: nat ensures OfPriority(sent, p) == OfPriority(msgs, p) {
      SameOfPriority(sent, msgs, p);
    }
  }

  /** What comes out oldest first within each priority is what went in, restricted to the priority. */
  lemma SameOfPriority(sent: seq<Message>, msgs: seq<Message>, p: nat)
    requires ClockRises(msgs) && forall m :: m in sent <==> m in msgs
    requires forall i, j | 0 <= i < j < |sent| && sent[i].priority == sent[j].priority ::
               sent[i] != sent[j] && sent[i].createdAt <= sent[j].createdAt
    ensures OfPriority(sent, p) == OfPriority(msgs, p)
  {
    forall i, j | 0 <= i < j < |sent| && sent[i].priority == sent[j].priority
      ensures sent[i].createdAt < sent[j].createdAt
    {
      assert sent[i] in msgs && sent[j] in msgs;
      var k :| 0 <= k < |msgs| && msgs[k] == sent[i];
      var l :| 0 <= l < |msgs| && msgs[l] == sent[j];
    }
    OfPriorityMembers(sent, p);
    OfPriorityMembers(msgs, p);
    OfPriorityRises(sent, p);
    OfPriorityRises(msgs, p);
    RisingIsDetermined(OfPriority(sent, p), OfPriority(msgs, p));
  }

  lemma RisingSize(msgs: seq<Message>)
    requires ClockRises(msgs)
    ensures |Rows(msgs)| == |msgs|
  {
    RisingIsNew(msgs);
    AllNewSize({}, msgs);
    assert {} + Rows(msgs) == Rows(msgs);
  }

  ghost predicate OnePriority(msgs: seq<Message>, p: nat) {
    forall m | m in msgs :: m.priority == p
  }

  /** Of messages of one priority the first is the one to go. */
  lemma OldestGoes(msgs: seq<Message>, p: nat, kept: set<Message>)
    requires msgs != [] && ClockRises(msgs) && OnePriority(msgs, p) && Evicts(Rows(msgs), 1, kept)
    ensures kept == Rows(msgs[1..])
  {
    var oldest, rest := msgs[0], msgs[1..];
    assert msgs == [oldest] + rest;
    RisingSize(msgs);
    RisingSize(rest);
    SubsetProper(kept, Rows(msgs));
    var d :| d in Rows(msgs) - kept;
    var i :| 0 <= i < |msgs| && msgs[i] == d;
    assert oldest in kept ==> EvictedFirst(d, oldest);
    assert oldest !in kept;
    assert kept <= Rows(rest);
    SubsetOfAll(kept, Rows(rest));
  }

  lemma NoneGoes(rows: set<Message>, kept: set<Message>)
    requires Evicts(rows, 0, kept)
    ensures kept == rows
  {
    SubsetOfAll(kept, rows);
  }

  /** One more enqueue into a table of the last messages. */
  lemma LastStep(maxSize: nat, held: seq<Message>, p: nat, newest: Message, rows: set<Message>)
    requires ClockRises(held) && OnePriority(held, p) && |held| <= Max(maxSize, 1)
    requires Enqueues(maxSize, Rows(held), newest, rows)
    ensures rows == Rows(held[if |held| == Max(maxSize, 1) then 1 else 0..]) + {newest}
  {
    RisingSize(held);
    var n := Evictions(|held|, maxSize, 0, 0);
    var kept :| Evicts(Rows(held), n, kept) && rows == kept + {newest};
    if held == [] {
      assert kept == {};
    } else if n == 0 {
      NoneGoes(Rows(held), kept);
    } else {
      OldestGoes(held, p, kept);
    }
  }

  /** The last `n` messages, or all. */
  ghost function Last(msgs: seq<Message>, n: nat): seq<Message> {
    msgs[Max(|msgs| - n, 0)..]
  }

  /** With one priority and a rising clock the table is the last messages, as many as it has room for. */
  lemma {:induction false} LastAreKept(maxSize: nat, msgs: seq<Message>, p: nat, rows: set<Message>)
    requires ClockRises(msgs) && OnePriority(msgs, p) && Stores(maxSize, {}, msgs, rows)
    ensures rows == Rows(Last(msgs, Max(maxSize, 1)))
    decreases |msgs|
  {
    if msgs != [] {
      var prefix, newest := msgs[..|msgs| - 1], msgs[|msgs| - 1];
      var before :| Stores(maxSize, {}, prefix, before) && Enqueues(maxSize, before, newest, rows);
      PrefixRises(msgs);
      LastAreKept(maxSize, prefix, p, before);
      LastOnesMoveOn(maxSize, msgs, p, rows);
    }
  }

  lemma PrefixRises(msgs: seq<Message>)
    requires msgs != [] && ClockRises(msgs)
    ensures ClockRises(msgs[..|msgs| - 1])
    ensures forall p | OnePriority(msgs, p) :: OnePriority(msgs[..|msgs| - 1], p)
  {
    assert forall m | m in msgs[..|msgs| - 1] :: m in msgs;
  }

  lemma LastOnesMoveOn(maxSize: nat, msgs: seq<Message>, p: nat, rows: set<Message>)
    requires msgs != [] && ClockRises(msgs) && OnePriority(msgs, p)
    requires Enqueues(maxSize, Rows(Last(msgs[..|msgs| - 1], Max(maxSize, 1))), msgs[|msgs| - 1], rows)
    ensures rows == Rows(Last(msgs, Max(maxSize, 1)))
  {
    var prefix, capacity := msgs[..|msgs| - 1], Max(maxSize, 1);
    var from := Max(|prefix| - capacity, 0);
    PrefixRises(msgs);
    TailRises(prefix, from, p);
    LastStep(maxSize, Last(prefix, capacity), p, msgs[|msgs| - 1], rows);
    NextTail(msgs, from, if |prefix| - from == capacity then 1 else 0);
  }

  lemma NextTail(msgs: seq<Message>, from: nat, d: nat)
    requires msgs != [] && from + d <= |msgs| - 1
    ensures Rows(msgs[..|msgs| - 1][from..][d..]) + {msgs[|msgs| - 1]} == Rows(msgs[from + d..])
  {
    assert msgs[..|msgs| - 1][from..][d..] + [msgs[|msgs| - 1]] == msgs[from + d..];
  }

  lemma TailRises(msgs: seq<Message>, from: nat, p: nat)
    requires from <= |msgs| && ClockRises(msgs) && OnePriority(msgs, p)
    ensures ClockRises(msgs[from..]) && OnePriority(msgs[from..], p)
  {
  }
}
