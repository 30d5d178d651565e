/** Message history: rows in the database, and a cached copy that is appended to instead of
    being fetched again. */
module History {
  import opened Text
  import opened Cache
  import opened Runs

  type ConvId = nat
  type MessageId = nat

  /** The fields the history query selects. */
  datatype Row = Row(id: MessageId, role: string, content: string, createdAt: int, modality: Option<string>)

  /** A cached message dict; `add_message_with_build_ms` leaves one more field in it. */
  datatype Message = Message(row: Row, buildMs: Option<int>)

  function Rows(messages: seq<Message>): (rows: seq<Row>)
    ensures |rows| == |messages| && forall k :: 0 <= k < |rows| ==> rows[k] == messages[k].row
  {
    seq(|messages|, k requires 0 <= k < |messages| => messages[k].row)
  }

  predicate Sorted(rows: seq<Row>) {
    forall i, j :: 0 <= i < j < |rows| ==> rows[i].createdAt <= rows[j].createdAt
  }

  /** An answer `ORDER BY created_at` may give for the stored rows; rows with equal times may
      come in any order. */
  predicate IsAnswer(stored: seq<Row>, answer: seq<Row>) {
    multiset(answer) == multiset(stored) && Sorted(answer)
  }

  /** Appending a stored row to an answer gives an answer exactly when it is no older than the
      last row: the cache may skip the query only while the clock does not go back. */
  lemma AppendKeepsAnswer(stored: seq<Row>, answer: seq<Row>, row: Row)
    requires IsAnswer(stored, answer)
    ensures IsAnswer(stored + [row], answer + [row]) <==>
            answer == [] || answer[|answer| - 1].createdAt <= row.createdAt
  {
    var more := answer + [row];
    if answer != [] && Sorted(more) {
      assert more[|answer| - 1].createdAt <= more[|answer|].createdAt;
    }
  }

  predicate TimesDistinct(rows: seq<Row>) {
    forall r, s :: r in rows && s in rows && r.createdAt == s.createdAt ==> r == s
  }

  /** When no two rows share a time the answer is unique, so the cached copy equals the query. */
  lemma AnswerUnique(stored: seq<Row>, a: seq<Row>, b: seq<Row>)
    requires IsAnswer(stored, a) && IsAnswer(stored, b) && TimesDistinct(stored)
    ensures a == b
  {
    forall r | r in a ensures r in stored {
      assert r in multiset(a);
    }
    SortedUnique(a, b);
  }

  lemma {:induction false} SortedUnique(a: seq<Row>, b: seq<Row>)
    requires Sorted(a) && Sorted(b) && multiset(a) == multiset(b) && TimesDistinct(a)
    ensures a == b
  {
    SameLength(a, b);
    if a != [] {
      LastsEqual(a, b);
      PopLast(a);
      PopLast(b);
      SortedUnique(a[..|a| - 1], b[..|b| - 1]);
    }
  }

  lemma LastsEqual(a: seq<Row>, b: seq<Row>)
    requires Sorted(a) && Sorted(b) && multiset(a) == multiset(b) && TimesDistinct(a) && a != [] && b != []
    ensures a[|a| - 1] == b[|b| - 1]
  {
    LastIsLatest(a, b);
    LastIsLatest(b, a);
    assert b[|b| - 1] in multiset(b);
  }

  lemma SameLength(a: seq<Row>, b: seq<Row>)
    requires multiset(a) == multiset(b)
    ensures |a| == |b|
  {
    assert |multiset(a)| == |a| && |multiset(b)| == |b|;
  }

  /** The last row of a sorted answer is no older than any row of the other answer. */
  lemma LastIsLatest(a: seq<Row>, b: seq<Row>)
    requires Sorted(a) && multiset(a) == multiset(b) && a != [] && b != []
    ensures b[|b| - 1].createdAt <= a[|a| - 1].createdAt
  {
    assert b[|b| - 1] in multiset(b);
    assert b[|b| - 1] in a;
  }

  lemma PopLast(a: seq<Row>)
    requires a != [] && Sorted(a)
    ensures multiset(a[..|a| - 1]) == multiset(a) - multiset{a[|a| - 1]}
    ensures Sorted(a[..|a| - 1]) && (TimesDistinct(a) ==> TimesDistinct(a[..|a| - 1]))
    ensures a == a[..|a| - 1] + [a[|a| - 1]]
  {
    assert a == a[..|a| - 1] + [a[|a| - 1]];
    assert forall r :: r in a[..|a| - 1] ==> r in a;
  }

  function InsertRow(rows: seq<Row>, r: Row): seq<Row> {
    if rows == [] || rows[|rows| - 1].createdAt <= r.createdAt then rows + [r]
    else InsertRow(rows[..|rows| - 1], r) + [rows[|rows| - 1]]
  }

  predicate UpTo(rows: seq<Row>, time: int) {
    forall k :: 0 <= k < |rows| ==> rows[k].createdAt <= time
  }

  lemma SortedSnoc(rows: seq<Row>, r: Row)
    requires Sorted(rows) && UpTo(rows, r.createdAt)
    ensures Sorted(rows + [r])
  {
  }

  lemma {:induction false} InsertSorts(rows: seq<Row>, r: Row)
    requires Sorted(rows)
    ensures Sorted(InsertRow(rows, r))
    ensures forall time :: UpTo(rows, time) && r.createdAt <= time ==> UpTo(InsertRow(rows, r), time)
  {
    if rows == [] || rows[|rows| - 1].createdAt <= r.createdAt {
      SortedSnoc(rows, r);
    } else {
      var before, last := rows[..|rows| - 1], rows[|rows| - 1];
      InsertSorts(before, r);
      assert UpTo(before, last.createdAt);
      SortedSnoc(InsertRow(before, r), last);
      forall time | UpTo(rows, time) && r.createdAt <= time ensures UpTo(InsertRow(rows, r), time) {
        assert UpTo(before, time) && last.createdAt <= time;
      }
    }
  }

  lemma {:induction false} InsertKeepsRows(rows: seq<Row>, r: Row)
    ensures multiset(InsertRow(rows, r)) == multiset(rows) + multiset{r}
  {
    if !(rows == [] || rows[|rows| - 1].createdAt <= r.createdAt) {
      var before, last := rows[..|rows| - 1], rows[|rows| - 1];
      assert rows == before + [last];
      InsertKeepsRows(before, r);
    }
  }

  /** `SELECT ... ORDER BY created_at`. */
  method OrderByCreatedAt(stored: seq<Row>) returns (answer: seq<Row>)
    ensures IsAnswer(stored, answer)
  {
    answer := [];
    for k := 0 to |stored|
      invariant IsAnswer(stored[..k], answer)
    {
      InsertSorts(answer, stored[k]);
      InsertKeepsRows(answer, stored[k]);
      assert stored[..k + 1] == stored[..k] + [stored[k]];
      answer := InsertRow(answer, stored[k]);
    }
    assert stored[..|stored|] == stored;
  }

  function RowsOf(messages: map<ConvId, seq<Row>>, conv: ConvId): seq<Row> {
    if conv in messages then messages[conv] else []
  }

  type Histories = map<ConvId, Entry<seq<Message>>>

  /** Every cache entry, expired or not, is an answer to the history query as of now. */
  ghost predicate Coherent(messages: map<ConvId, seq<Row>>, entries: Histories) {
    forall c :: c in entries ==> IsAnswer(RowsOf(messages, c), Rows(entries[c].val))
  }

  /** The cache after `append_to_history_cache`: nothing live, nothing to append to; the last
      message again, nothing new. */
  function Appended(entries: Histories, conv: ConvId, message: Message, ttl: real, now: real): Histories {
    match Lookup(entries, conv, now)
    case None => entries - {conv}
    case Some(cached) =>
      if cached != [] && cached[|cached| - 1].row.id == message.row.id then entries
      else entries[conv := Entry(now + Lifetime(ttl), cached + [message])]
  }

  /** The message is no older than the last one a live cache entry holds. */
  predicate InOrder(entries: Histories, conv: ConvId, message: Message, now: real) {
    match Lookup(entries, conv, now)
    case None => true
    case Some(cached) => cached == [] || cached[|cached| - 1].row.createdAt <= message.row.createdAt
  }

  /** Inserting a row and appending it to the cache keeps every entry an answer exactly when the
      row is in order: its id is new, so the duplicate check never drops it. */
  lemma AppendCoherent(messages: map<ConvId, seq<Row>>, entries: Histories, conv: ConvId,
                       message: Message, ttl: real, now: real)
    requires Coherent(messages, entries) && conv in messages
    requires forall k :: 0 <= k < |messages[conv]| ==> messages[conv][k].id != message.row.id
    ensures Coherent(messages[conv := messages[conv] + [message.row]], Appended(entries, conv, message, ttl, now))
       <==> InOrder(entries, conv, message, now)
  {
    var after := messages[conv := messages[conv] + [message.row]];
    var next := Appended(entries, conv, message, ttl, now);
    forall c | c in next && c != conv ensures IsAnswer(RowsOf(after, c), Rows(next[c].val)) {
      assert RowsOf(after, c) == RowsOf(messages, c) && next[c] == entries[c];
    }
    if Lookup(entries, conv, now).Some? {
      LiveAppend(messages[conv], entries, conv, message, ttl, now);
    }
  }

  /** The conversation's own entry, if live. */
  lemma LiveAppend(stored: seq<Row>, entries: Histories, conv: ConvId, message: Message, ttl: real, now: real)
    requires Lookup(entries, conv, now).Some? && IsAnswer(stored, Rows(entries[conv].val))
    requires forall k :: 0 <= k < |stored| ==> stored[k].id != message.row.id
    ensures conv in Appended(entries, conv, message, ttl, now)
    ensures IsAnswer(stored + [message.row], Rows(Appended(entries, conv, message, ttl, now)[conv].val))
       <==> InOrder(entries, conv, message, now)
  {
    var cached := entries[conv].val;
    LastIsStored(stored, cached);
    assert Appended(entries, conv, message, ttl, now)[conv].val == cached + [message];
    MessageAppends(stored, cached, message);
  }

  /** One conversation's part of it. */
  lemma MessageAppends(stored: seq<Row>, cached: seq<Message>, message: Message)
    requires IsAnswer(stored, Rows(cached))
    ensures IsAnswer(stored + [message.row], Rows(cached + [message])) <==>
            cached == [] || cached[|cached| - 1].row.createdAt <= message.row.createdAt
  {
    assert Rows(cached + [message]) == Rows(cached) + [message.row];
    AppendKeepsAnswer(stored, Rows(cached), message.row);
  }

  /** The row has a new id and a later time than the stored ones. */
  predicate Newer(stored: seq<Row>, row: Row) {
    forall r :: r in stored ==> r.createdAt < row.createdAt && r.id != row.id
  }

  /** A row newer than all stored ones is newer than the last one cached. */
  lemma NewerInOrder(messages: map<ConvId, seq<Row>>, entries: Histories, conv: ConvId, message: Message, now: real)
    requires Coherent(messages, entries) && conv in messages
    ensures Newer(messages[conv], message.row) ==> InOrder(entries, conv, message, now)
  {
    if conv in entries {
      LastIsStored(messages[conv], entries[conv].val);
    }
  }

  lemma LastIsStored(stored: seq<Row>, cached: seq<Message>)
    requires IsAnswer(stored, Rows(cached))
    ensures cached != [] ==> cached[|cached| - 1].row in stored
  {
    if cached != [] {
      assert Rows(cached)[|cached| - 1] in multiset(Rows(cached));
    }
  }

  /** The rows of a batch that belong to one conversation. */
  function OwnRows(batch: seq<(ConvId, Row)>, conv: ConvId): seq<Row> {
    if batch == [] then []
    else
      var p := batch[|batch| - 1];
      OwnRows(batch[..|batch| - 1], conv) + if p.0 == conv then [p.1] else []
  }

  lemma OwnRowsSnoc(batch: seq<(ConvId, Row)>, n: nat)
    requires n < |batch|
    ensures OwnRows(batch[..n + 1], batch[n].0) == OwnRows(batch[..n], batch[n].0) + [batch[n].1]
    ensures forall c :: c != batch[n].0 ==> OwnRows(batch[..n + 1], c) == OwnRows(batch[..n], c)
  {
    assert batch[..n + 1][..n] == batch[..n];
    assert forall c :: OwnRows(batch[..n], c) + [] == OwnRows(batch[..n], c);
  }

  // ---------------------------------------------------------------- interleaved calls

  type Task = nat

  datatype Span = Span(lo: nat, hi: nat)

  /** What a call still holds while it awaits the database: the rows a query gave, of which there
      were `seen`, before they are cached; an inserted message, stored at position `at`, before it
      is appended; the positions of a batch, before its conversations are invalidated. */
  datatype Held =
    | Queried(conv: ConvId, seen: nat, found: seq<Message>)
    | Added(conv: ConvId, at: nat, message: Message)
    | Batched(spans: map<ConvId, Span>)

  datatype Server = Server(messages: map<ConvId, seq<Row>>, entries: Histories, held: map<Task, Held>, ttl: real)

  type Batch = seq<(ConvId, Row)>

  /** What runs between two awaits. */
  datatype Step =
    | Open(conv: ConvId)
    | Drop(conv: ConvId)
    | Hit(conv: ConvId, now: real)
    | Query(task: Task, conv: ConvId, found: seq<Message>)
    | Store(task: Task, now: real)
    | Insert(task: Task, conv: ConvId, message: Message)
    | Append(task: Task, now: real)
    | InsertBatch(task: Task, batch: Batch)
    | Invalidate(task: Task)

  predicate IdsDistinct(rows: seq<Row>) {
    forall i, j :: 0 <= i < j < |rows| ==> rows[i].id != rows[j].id
  }

  /** The rows of a batch are newer than all stored ones; they may share their time. */
  predicate Fits(stored: seq<Row>, own: seq<Row>) {
    IdsDistinct(own) && forall r :: r in own ==> Newer(stored, r)
  }

  ghost predicate Enabled(s: Server, t: Step) {
    match t
    case Open(conv) => conv !in s.messages
    case Drop(_) => true
    case Hit(_, _) => true
    case Query(task, conv, found) => task !in s.held && IsAnswer(RowsOf(s.messages, conv), Rows(found))
    case Store(task, _) => task in s.held && s.held[task].Queried?
    case Insert(task, conv, message) => task !in s.held && conv in s.messages && Newer(s.messages[conv], message.row)
    case Append(task, _) => task in s.held && s.held[task].Added?
    case InsertBatch(task, batch) =>
      task !in s.held && (forall p :: p in batch ==> p.0 in s.messages)
      && (forall c :: c in s.messages ==> Fits(s.messages[c], OwnRows(batch, c)))
    case Invalidate(task) => task in s.held && s.held[task].Batched?
  }

  function WithBatch(messages: map<ConvId, seq<Row>>, batch: Batch): map<ConvId, seq<Row>> {
    map c | c in messages :: messages[c] + OwnRows(batch, c)
  }

  function SpansOf(messages: map<ConvId, seq<Row>>, batch: Batch): map<ConvId, Span> {
    map c | c in messages && OwnRows(batch, c) != [] :: Span(|messages[c]|, |messages[c] + OwnRows(batch, c)|)
  }

  /** The state after a step; a step that is not enabled does nothing. */
  ghost function After(s: Server, t: Step): Server {
    if !Enabled(s, t) then s
    else
      match t
      case Open(conv) => s.(messages := s.messages[conv := []])
      case Drop(conv) => s.(messages := s.messages - {conv})
      case Hit(conv, now) => s.(entries := Next(s.entries, GetCall(conv, now)))
      case Query(task, conv, found) => s.(held := s.held[task := Queried(conv, |RowsOf(s.messages, conv)|, found)])
      case Store(task, now) =>
        var q := s.held[task];
        s.(entries := Next(s.entries, SetCall(q.conv, q.found, s.ttl, now)), held := s.held - {task})
      case Insert(task, conv, message) =>
        s.(messages := s.messages[conv := s.messages[conv] + [message.row]],
           held := s.held[task := Added(conv, |s.messages[conv]|, message)])
      case Append(task, now) =>
        s.(entries := Appended(s.entries, s.held[task].conv, s.held[task].message, s.ttl, now), held := s.held - {task})
      case InsertBatch(task, batch) =>
        s.(messages := WithBatch(s.messages, batch), held := s.held[task := Batched(SpansOf(s.messages, batch))])
      case Invalidate(task) => s.(entries := s.entries - s.held[task].spans.Keys, held := s.held - {task})
  }

  // ---------------------------------------------------------------- when a cached history is whole

  /** The row at position `i` is stored, but not yet appended or its conversation invalidated. */
  predicate HeldRow(h: Held, conv: ConvId, i: nat) {
    match h
    case Queried(_, _, _) => false
    case Added(c, at, _) => c == conv && at == i
    case Batched(spans) => conv in spans && spans[conv].lo <= i < spans[conv].hi
  }

  ghost predicate InFlight(s: Server, conv: ConvId, i: nat) {
    exists k :: k in s.held && HeldRow(s.held[k], conv, i)
  }

  /** Every row from position `n` on is in flight. */
  ghost predicate RestInFlight(s: Server, conv: ConvId, n: nat) {
    forall i: nat :: n <= i < |RowsOf(s.messages, conv)| ==> InFlight(s, conv, i)
  }

  /** The row at `k` is newer than all before it and older than all after it. */
  predicate Alone(stored: seq<Row>, k: nat) {
    && k < |stored|
    && (forall i :: 0 <= i < k ==> stored[i].createdAt < stored[k].createdAt)
    && (forall i :: k < i < |stored| ==> stored[k].createdAt < stored[i].createdAt)
  }

  /** An answer of the query when the first rows were all that was stored. */
  predicate IsCopy(stored: seq<Row>, rows: seq<Row>) {
    |rows| <= |stored| && IsAnswer(stored[..|rows|], rows)
  }

  /** What a call holds fits what is stored. */
  predicate HeldFits(h: Held, conv: ConvId, stored: seq<Row>) {
    match h
    case Queried(c, seen, found) => c == conv ==> |found| == seen && IsCopy(stored, Rows(found))
    case Added(c, at, message) => c == conv ==> Alone(stored, at) && stored[at] == message.row
    case Batched(_) => true
  }

  ghost predicate Ordered(s: Server, conv: ConvId) {
    var stored := RowsOf(s.messages, conv);
    && IdsDistinct(stored)
    && (forall k :: k in s.held ==> HeldFits(s.held[k], conv, stored))
    && (conv in s.entries ==> IsCopy(stored, Rows(s.entries[conv].val)))
  }

  /** An entry is a copy of the first rows, and all other rows are still in flight. */
  ghost predicate Inv(s: Server, conv: ConvId) {
    Ordered(s, conv) && (conv in s.entries ==> RestInFlight(s, conv, |s.entries[conv].val|))
  }

  /** Nothing of a conversation is cached, held or on its way to the cache. */
  ghost predicate Forgotten(s: Server, conv: ConvId) {
    && (conv in s.entries ==> s.entries[conv].val == [])
    && (forall k :: k in s.held ==> HeldFits(s.held[k], conv, []))
  }

  /** A message is appended after all rows before it and before any after it, unless nothing live
      is cached; a fetch is stored while all rows that it misses are in flight; and a conversation
      is deleted when the cache knows nothing of it. */
  ghost predicate Orderly(s: Server, t: Step, conv: ConvId) {
    match t
    case Append(task, now) =>
      task in s.held && s.held[task].Added? && s.held[task].conv == conv && Lookup(s.entries, conv, now).Some? ==>
        s.held[task].at <= |s.entries[conv].val| <= s.held[task].at + 1
    case Store(task, _) =>
      task in s.held && s.held[task].Queried? && s.held[task].conv == conv ==> RestInFlight(s, conv, s.held[task].seen)
    case Drop(c) => c == conv ==> Forgotten(s, conv)
    case _ => true
  }

  /** A row that is alone at its time is the last of a copy exactly when the copy ends with it. */
  lemma LastOfCopy(stored: seq<Row>, rows: seq<Row>, k: nat)
    requires IdsDistinct(stored) && Alone(stored, k) && IsCopy(stored, rows)
    ensures rows != [] && rows[|rows| - 1].id == stored[k].id <==> |rows| == k + 1
  {
    var n := |rows|;
    if n > 0 {
      var last := rows[n - 1];
      assert last in multiset(rows);
      var i :| 0 <= i < n && stored[..n][i] == last;
      assert last == stored[i];
      assert last.id == stored[k].id <==> i == k;
      if n > k {
        assert stored[..n][k] in multiset(stored[..n]);
        assert stored[n - 1] == stored[..n][n - 1] && stored[n - 1] in multiset(stored[..n]);
        LatestIsLast(rows, stored[k]);
        LatestIsLast(rows, stored[n - 1]);
      }
    }
  }

  lemma LatestIsLast(rows: seq<Row>, r: Row)
    requires Sorted(rows) && r in multiset(rows)
    ensures rows != [] && r.createdAt <= rows[|rows| - 1].createdAt
  {
    var i :| 0 <= i < |rows| && rows[i] == r;
  }

  /** Appending that row gives a copy exactly when the copy ends right before it. */
  lemma AppendCopy(stored: seq<Row>, rows: seq<Row>, k: nat)
    requires IdsDistinct(stored) && Alone(stored, k) && IsCopy(stored, rows)
    ensures IsCopy(stored, rows + [stored[k]]) <==> |rows| == k
  {
    var n, more := |rows|, rows + [stored[k]];
    if n < |stored| {
      assert stored[..n + 1] == stored[..n] + [stored[n]];
      if n == k {
        if n > 0 {
          assert rows[n - 1] in multiset(rows);
          var i :| 0 <= i < n && stored[..n][i] == rows[n - 1];
        }
        AppendKeepsAnswer(stored[..n], rows, stored[k]);
      } else if IsAnswer(stored[..n + 1], more) {
        SameRest(multiset(rows), stored[k], stored[n]);
      }
    }
  }

  lemma SameRest(m: multiset<Row>, a: Row, b: Row)
    requires m + multiset{a} == m + multiset{b}
    ensures a == b
  {
    assert (m + multiset{a})[a] == m[a] + 1;
  }

  /** A conversation of which a step changes neither rows nor entry. */
  lemma Unmoved(s: Server, t: Step, conv: ConvId)
    requires Enabled(s, t) && Inv(s, conv)
    requires RowsOf(After(s, t).messages, conv) == RowsOf(s.messages, conv)
    requires conv in After(s, t).entries ==> conv in s.entries && After(s, t).entries[conv] == s.entries[conv]
    requires forall k :: k in After(s, t).held ==>
               HeldFits(After(s, t).held[k], conv, RowsOf(s.messages, conv))
    requires forall k, i: nat :: k in s.held && HeldRow(s.held[k], conv, i) ==>
               k in After(s, t).held && After(s, t).held[k] == s.held[k]
    ensures Inv(After(s, t), conv)
  {
    var n := After(s, t);
    if conv in n.entries {
      forall i: nat | |n.entries[conv].val| <= i < |RowsOf(n.messages, conv)| ensures InFlight(n, conv, i) {
        assert InFlight(s, conv, i);
        var k :| k in s.held && HeldRow(s.held[k], conv, i);
        assert k in n.held && HeldRow(n.held[k], conv, i);
      }
    }
  }

  lemma IdsStayDistinct(stored: seq<Row>, own: seq<Row>)
    requires IdsDistinct(stored) && Fits(stored, own)
    ensures IdsDistinct(stored + own)
  {
    var more := stored + own;
    forall i, j | 0 <= i < j < |more| ensures more[i].id != more[j].id {
      if i < |stored| <= j {
        assert stored[i] in stored && own[j - |stored|] in own;
      }
    }
  }

  /** Rows are added behind the stored ones: copies stay copies, and what was alone stays so. */
  lemma CopyStays(stored: seq<Row>, own: seq<Row>, rows: seq<Row>)
    requires IsCopy(stored, rows)
    ensures IsCopy(stored + own, rows)
  {
    assert (stored + own)[..|rows|] == stored[..|rows|];
  }

  lemma AloneStays(stored: seq<Row>, own: seq<Row>, k: nat)
    requires Alone(stored, k) && Fits(stored, own)
    ensures Alone(stored + own, k) && (stored + own)[k] == stored[k]
  {
    var more := stored + own;
    forall i | k < i < |more| ensures more[k].createdAt < more[i].createdAt {
      if i >= |stored| {
        assert more[i] == own[i - |stored|] && own[i - |stored|] in own && stored[k] in stored;
      }
    }
  }

  lemma HeldStillFits(h: Held, conv: ConvId, stored: seq<Row>, own: seq<Row>)
    requires HeldFits(h, conv, stored) && Fits(stored, own)
    ensures HeldFits(h, conv, stored + own)
  {
    match h
    case Queried(c, _, found) =>
      if c == conv {
        CopyStays(stored, own, Rows(found));
      }
    case Added(c, at, _) =>
      if c == conv {
        AloneStays(stored, own, at);
      }
    case Batched(_) =>
  }

  lemma NewestIsAlone(stored: seq<Row>, row: Row)
    requires Newer(stored, row)
    ensures Alone(stored + [row], |stored|)
  {
    forall i | 0 <= i < |stored| ensures (stored + [row])[i].createdAt < row.createdAt {
      assert stored[i] in stored;
    }
  }

  /** What inserting rows into a conversation keeps, whatever call inserts them. */
  lemma RowsAdded(s: Server, t: Step, conv: ConvId, task: Task, own: seq<Row>)
    requires Enabled(s, t) && Inv(s, conv) && Fits(RowsOf(s.messages, conv), own) && task !in s.held
    requires After(s, t).held.Keys == s.held.Keys + {task} && After(s, t).entries == s.entries
    requires forall k :: k in s.held ==> After(s, t).held[k] == s.held[k]
    requires RowsOf(After(s, t).messages, conv) == RowsOf(s.messages, conv) + own
    requires HeldFits(After(s, t).held[task], conv, RowsOf(s.messages, conv) + own)
    requires forall i: nat :: |RowsOf(s.messages, conv)| <= i < |RowsOf(s.messages, conv)| + |own| ==>
               HeldRow(After(s, t).held[task], conv, i)
    ensures Inv(After(s, t), conv)
  {
    var n, stored := After(s, t), RowsOf(s.messages, conv);
    IdsStayDistinct(stored, own);
    forall k | k in n.held ensures HeldFits(n.held[k], conv, stored + own) {
      if k != task {
        HeldStillFits(s.held[k], conv, stored, own);
      }
    }
    if conv in n.entries {
      CopyStays(stored, own, Rows(n.entries[conv].val));
      NewInFlight(s, n, conv, task, |n.entries[conv].val|, |stored|);
    }
  }

  lemma NewInFlight(s: Server, n: Server, conv: ConvId, task: Task, from: nat, lo: nat)
    requires RestInFlight(s, conv, from) && |RowsOf(s.messages, conv)| == lo && task in n.held
    requires forall k :: k in s.held ==> k in n.held && n.held[k] == s.held[k]
    requires forall i: nat :: lo <= i < |RowsOf(n.messages, conv)| ==> HeldRow(n.held[task], conv, i)
    ensures RestInFlight(n, conv, from)
  {
    forall i: nat | from <= i < |RowsOf(n.messages, conv)| ensures InFlight(n, conv, i) {
      if i < lo {
        assert InFlight(s, conv, i);
        var k :| k in s.held && HeldRow(s.held[k], conv, i);
        assert k in n.held && HeldRow(n.held[k], conv, i);
      }
    }
  }

  lemma QueryKeeps(s: Server, t: Step, conv: ConvId)
    requires Enabled(s, t) && t.Query? && Inv(s, conv)
    ensures Inv(After(s, t), conv)
  {
    var stored := RowsOf(s.messages, conv);
    if t.conv == conv {
      assert stored[..|stored|] == stored;
      assert |multiset(Rows(t.found))| == |multiset(stored)|;
    }
    Unmoved(s, t, conv);
  }

  lemma InsertKeeps(s: Server, t: Step, conv: ConvId)
    requires Enabled(s, t) && t.Insert? && Inv(s, conv)
    ensures Inv(After(s, t), conv)
  {
    if t.conv == conv {
      NewestIsAlone(s.messages[conv], t.message.row);
      RowsAdded(s, t, conv, t.task, [t.message.row]);
    } else {
      Unmoved(s, t, conv);
    }
  }

  lemma BatchKeeps(s: Server, t: Step, conv: ConvId)
    requires Enabled(s, t) && t.InsertBatch? && Inv(s, conv)
    ensures Inv(After(s, t), conv)
  {
    if conv in s.messages {
      RowsAdded(s, t, conv, t.task, OwnRows(t.batch, conv));
    } else {
      Unmoved(s, t, conv);
    }
  }

  /** Caching a fetch keeps it exactly when every row that it misses is still in flight. */
  lemma StoreExactly(s: Server, t: Step, conv: ConvId)
    requires Enabled(s, t) && t.Store? && Inv(s, conv)
    ensures Inv(After(s, t), conv) <==> Orderly(s, t, conv)
  {
    var n := After(s, t);
    if s.held[t.task].conv != conv {
      Unmoved(s, t, conv);
    } else {
      assert n.entries[conv].val == s.held[t.task].found;
      assert HeldFits(s.held[t.task], conv, RowsOf(s.messages, conv));
      SameFlights(s, n, conv, t.task);
    }
  }

  /** Dropping a call that holds none of the rows. */
  lemma SameFlights(s: Server, n: Server, conv: ConvId, task: Task)
    requires n.held == s.held - {task} && (task in s.held ==> s.held[task].Queried?)
    ensures forall i: nat :: InFlight(n, conv, i) <==> InFlight(s, conv, i)
  {
    forall i: nat | InFlight(s, conv, i) ensures InFlight(n, conv, i) {
      var k :| k in s.held && HeldRow(s.held[k], conv, i);
      assert k in n.held;
    }
  }

  /** Dropping the call that holds one row. */
  lemma OtherFlights(s: Server, n: Server, conv: ConvId, task: Task, from: nat)
    requires n.messages == s.messages && n.held == s.held - {task} && task in s.held && s.held[task].Added?
    requires RestInFlight(s, conv, from) && s.held[task].conv == conv
    ensures RestInFlight(n, conv, if from <= s.held[task].at then s.held[task].at + 1 else from)
  {
    var at := s.held[task].at;
    forall i: nat | from <= i < |RowsOf(s.messages, conv)| && i != at ensures InFlight(n, conv, i) {
      assert InFlight(s, conv, i);
      var k :| k in s.held && HeldRow(s.held[k], conv, i);
      assert k in n.held && HeldRow(n.held[k], conv, i);
    }
  }

  /** A live entry after an append: unchanged if it ends with the message, else extended. */
  lemma AppendedEntry(s: Server, t: Step, conv: ConvId)
    requires Enabled(s, t) && t.Append? && Ordered(s, conv) && s.held[t.task].conv == conv
    requires Lookup(s.entries, conv, t.now).Some?
    ensures var cached, h := s.entries[conv].val, s.held[t.task];
            && conv in After(s, t).entries
            && After(s, t).entries[conv].val == (if |cached| == h.at + 1 then cached else cached + [h.message])
            && (IsCopy(RowsOf(s.messages, conv), Rows(After(s, t).entries[conv].val)) <==>
                h.at <= |cached| <= h.at + 1)
  {
    var stored, h, cached := RowsOf(s.messages, conv), s.held[t.task], s.entries[conv].val;
    assert HeldFits(h, conv, stored);
    LastOfCopy(stored, Rows(cached), h.at);
    AppendedCopy(stored, cached, h.message, h.at);
  }

  lemma AppendedCopy(stored: seq<Row>, cached: seq<Message>, m: Message, k: nat)
    requires IdsDistinct(stored) && Alone(stored, k) && stored[k] == m.row && IsCopy(stored, Rows(cached))
    ensures IsCopy(stored, Rows(if |cached| == k + 1 then cached else cached + [m])) <==> k <= |cached| <= k + 1
  {
    AppendCopy(stored, Rows(cached), k);
    assert Rows(cached + [m]) == Rows(cached) + [m.row];
  }

  /** Appending a message keeps the entry whole exactly when it ends right before that message,
      or with it, or there is none that is live. */
  lemma AppendExactly(s: Server, t: Step, conv: ConvId)
    requires Enabled(s, t) && t.Append? && Inv(s, conv)
    ensures Inv(After(s, t), conv) <==> Orderly(s, t, conv)
  {
    if s.held[t.task].conv != conv {
      Unmoved(s, t, conv);
    } else if Lookup(s.entries, conv, t.now).Some? {
      AppendedEntry(s, t, conv);
      OtherFlights(s, After(s, t), conv, t.task, |s.entries[conv].val|);
      AppendOrders(s, t, conv);
    }
  }

  lemma AppendOrders(s: Server, t: Step, conv: ConvId)
    requires Enabled(s, t) && t.Append? && Ordered(s, conv) && conv in After(s, t).entries
    ensures Ordered(After(s, t), conv) <==> IsCopy(RowsOf(s.messages, conv), Rows(After(s, t).entries[conv].val))
  {
  }

  lemma InvalidateKeeps(s: Server, t: Step, conv: ConvId)
    requires Enabled(s, t) && t.Invalidate? && Inv(s, conv)
    ensures Inv(After(s, t), conv)
  {
    if conv !in s.held[t.task].spans {
      Unmoved(s, t, conv);
    }
  }

  /** Deleting a conversation keeps it exactly when the cache knows nothing of it. */
  lemma DropExactly(s: Server, t: Step, conv: ConvId)
    requires Enabled(s, t) && t.Drop? && Inv(s, conv)
    ensures Inv(After(s, t), conv) <==> Orderly(s, t, conv)
  {
    var n := After(s, t);
    if t.conv != conv {
      Unmoved(s, t, conv);
    } else {
      assert RowsOf(n.messages, conv) == [];
      if conv in n.entries && IsCopy([], Rows(n.entries[conv].val)) {
        assert n.entries[conv].val == [];
      }
    }
  }

  /** The discipline is exact: a step of any call keeps a conversation's cached history whole
      exactly when it is orderly. */
  lemma StepKeepsExactly(s: Server, t: Step, conv: ConvId)
    requires Enabled(s, t) && Inv(s, conv)
    ensures Inv(After(s, t), conv) <==> Orderly(s, t, conv)
  {
    match t
    case Open(_) => Unmoved(s, t, conv);
    case Drop(_) => DropExactly(s, t, conv);
    case Hit(_, _) => Unmoved(s, t, conv);
    case Query(_, _, _) => QueryKeeps(s, t, conv);
    case Store(_, _) => StoreExactly(s, t, conv);
    case Insert(_, _, _) => InsertKeeps(s, t, conv);
    case Append(_, _) => AppendExactly(s, t, conv);
    case InsertBatch(_, _) => BatchKeeps(s, t, conv);
    case Invalidate(_) => InvalidateKeeps(s, t, conv);
  }

  ghost predicate OrderlyRun(s: Server, steps: seq<Step>, conv: ConvId) {
    AllFine((r: Server, t: Step) => Enabled(r, t) && Orderly(r, t, conv), After, s, steps)
  }

  function Started(ttl: real): Server {
    Server(map[], map[], map[], ttl)
  }

  predicate Increasing(rows: seq<Row>) {
    forall i, j :: 0 <= i < j < |rows| ==> rows[i].createdAt < rows[j].createdAt
  }

  /** Rows in the order of increasing times are their own and only answer. */
  lemma AnswerIsStored(stored: seq<Row>, answer: seq<Row>)
    requires Increasing(stored) && IsAnswer(stored, answer)
    ensures answer == stored
  {
    AnswerUnique(stored, stored, answer);
  }

  /** From an empty store on, over any orderly run of any calls, whenever no row is in flight a
      cached history is an answer of the query as of now; if no two rows share a time it is the
      answer, and if they were inserted one by one it is exactly what is stored, in order. */
  lemma HistoryIsExact(ttl: real, steps: seq<Step>, conv: ConvId, now: real)
    requires OrderlyRun(Started(ttl), steps, conv)
    ensures var s := RunAll(After, Started(ttl), steps);
            var stored, hit := RowsOf(s.messages, conv), Lookup(s.entries, conv, now);
            hit.Some? && (forall i: nat :: i < |stored| ==> !InFlight(s, conv, i)) ==>
              && IsAnswer(stored, Rows(hit.value))
              && (TimesDistinct(stored) ==> forall answer :: IsAnswer(stored, answer) ==> answer == Rows(hit.value))
              && ((forall i, j :: 0 <= i < j < |stored| ==> stored[i].createdAt < stored[j].createdAt) ==>
                    Rows(hit.value) == stored)
  {
    var fine := (r: Server, t: Step) => Enabled(r, t) && Orderly(r, t, conv);
    forall r, t | Inv(r, conv) && fine(r, t) ensures Inv(After(r, t), conv) {
      StepKeepsExactly(r, t, conv);
    }
    RunKeeps((r: Server) => Inv(r, conv), fine, After, Started(ttl), steps);
    WholeHit(RunAll(After, Started(ttl), steps), conv, now);
  }

  lemma WholeHit(s: Server, conv: ConvId, now: real)
    requires Inv(s, conv)
    ensures var stored, hit := RowsOf(s.messages, conv), Lookup(s.entries, conv, now);
            hit.Some? && (forall i: nat :: i < |stored| ==> !InFlight(s, conv, i)) ==>
              && IsAnswer(stored, Rows(hit.value))
              && (TimesDistinct(stored) ==> forall answer :: IsAnswer(stored, answer) ==> answer == Rows(hit.value))
              && (Increasing(stored) ==> Rows(hit.value) == stored)
  {
    var stored, hit := RowsOf(s.messages, conv), Lookup(s.entries, conv, now);
    if hit.Some? && forall i: nat :: i < |stored| ==> !InFlight(s, conv, i) {
      var n: nat := |hit.value|;
      assert n < |stored| ==> InFlight(s, conv, n);
      assert stored[..|stored|] == stored;
      if TimesDistinct(stored) {
        forall answer | IsAnswer(stored, answer) ensures answer == Rows(hit.value) {
          AnswerUnique(stored, answer, Rows(hit.value));
        }
      }
      if Increasing(stored) {
        AnswerIsStored(stored, Rows(hit.value));
      }
    }
  }

  /** The four steps of two calls: insert `a`, insert `b`, append `b`, append `a`. */
  function Crossed(conv: ConvId, a: Message, b: Message, t: Task, u: Task, now: real): seq<Step> {
    [Insert(t, conv, a), Insert(u, conv, b), Append(u, now), Append(t, now)]
  }

  /** Two inserts whose appends cross leave a live entry out of order. */
  lemma CrossedAppendsBreak(s: Server, conv: ConvId, a: Message, b: Message, t: Task, u: Task, now: real)
    requires conv in s.messages && Lookup(s.entries, conv, now).Some? && s.ttl > 0.0
    requires t !in s.held && u !in s.held && t != u
    requires Newer(s.messages[conv], a.row) && Newer(s.messages[conv] + [a.row], b.row)
    requires Rows(s.entries[conv].val) == s.messages[conv]
    ensures AllFine(Enabled, After, s, Crossed(conv, a, b, t, u, now))
    ensures var after := RunAll(After, s, Crossed(conv, a, b, t, u, now));
            conv in after.entries && !Sorted(Rows(after.entries[conv].val))
  {
    var steps := Crossed(conv, a, b, t, u, now);
    var cached := s.entries[conv].val;
    if cached != [] {
      assert Rows(cached)[|cached| - 1] in s.messages[conv];
      assert Rows(cached)[|cached| - 1] in s.messages[conv] + [a.row];
    }
    assert a.row in s.messages[conv] + [a.row];
    CrossedSteps(s, conv, a, b, t, u, now);
    RunOfFour(Enabled, After, s, steps[0], steps[1], steps[2], steps[3]);
    CrossedEntries(s.entries, conv, a, b, s.ttl, now);
  }

  lemma CrossedSteps(s: Server, conv: ConvId, a: Message, b: Message, t: Task, u: Task, now: real)
    requires conv in s.messages && t !in s.held && u !in s.held && t != u
    requires Newer(s.messages[conv], a.row) && Newer(s.messages[conv] + [a.row], b.row)
    ensures var s1 := After(s, Insert(t, conv, a));
            var s2 := After(s1, Insert(u, conv, b));
            var s3 := After(s2, Append(u, now));
            && Enabled(s, Insert(t, conv, a)) && Enabled(s1, Insert(u, conv, b))
            && Enabled(s2, Append(u, now)) && Enabled(s3, Append(t, now))
            && After(s3, Append(t, now)).entries
            == Appended(Appended(s.entries, conv, b, s.ttl, now), conv, a, s.ttl, now)
  {
  }

  lemma CrossedEntries(entries: Histories, conv: ConvId, a: Message, b: Message, ttl: real, now: real)
    requires Lookup(entries, conv, now).Some? && ttl > 0.0 && a.row.id != b.row.id
    requires a.row.createdAt < b.row.createdAt && LastId(entries[conv].val) != Some(b.row.id)
    ensures var after := Appended(Appended(entries, conv, b, ttl, now), conv, a, ttl, now);
            conv in after && !Sorted(Rows(after[conv].val))
  {
    var cached := entries[conv].val;
    var crossed := cached + [b] + [a];
    assert Appended(entries, conv, b, ttl, now)[conv].val == cached + [b];
    assert Rows(crossed)[|cached|] == b.row && Rows(crossed)[|cached| + 1] == a.row;
  }

  /** Appends from `exp` on, each before the entry has expired, each a new message. */
  predicate KeepsGoing(adds: seq<(Message, real)>, exp: real, ttl: real, lastId: Option<MessageId>) {
    adds != [] ==>
      && adds[0].1 < exp && lastId != Some(adds[0].0.row.id)
      && KeepsGoing(adds[1..], adds[0].1 + Lifetime(ttl), ttl, Some(adds[0].0.row.id))
  }

  function AppendAll(entries: Histories, conv: ConvId, adds: seq<(Message, real)>, ttl: real): Histories {
    if adds == [] then entries else AppendAll(Appended(entries, conv, adds[0].0, ttl, adds[0].1), conv, adds[1..], ttl)
  }

  function LastId(cached: seq<Message>): Option<MessageId> {
    if cached == [] then None else Some(cached[|cached| - 1].row.id)
  }

  /** A row that an entry has missed stays missing for as long as messages keep coming: every
      append renews the lifetime, so no TTL bounds the gap. */
  lemma {:induction false} GapOutlivesTtl(entries: Histories, conv: ConvId, adds: seq<(Message, real)>, ttl: real,
                                          missed: Row)
    requires conv in entries && missed !in Rows(entries[conv].val)
    requires KeepsGoing(adds, entries[conv].exp, ttl, LastId(entries[conv].val))
    requires forall k :: 0 <= k < |adds| ==> adds[k].0.row != missed
    ensures var after := AppendAll(entries, conv, adds, ttl);
            && conv in after && missed !in Rows(after[conv].val)
            && after[conv].exp == (if adds == [] then entries[conv].exp else adds[|adds| - 1].1 + Lifetime(ttl))
    decreases |adds|
  {
    if adds != [] {
      var (m, now) := adds[0];
      var next := Appended(entries, conv, m, ttl, now);
      assert next[conv].val == entries[conv].val + [m];
      assert Rows(next[conv].val) == Rows(entries[conv].val) + [m.row];
      GapOutlivesTtl(next, conv, adds[1..], ttl, missed);
    }
  }

  /** Evictions, and caching what the query gave. */
  lemma GetCoherent(messages: map<ConvId, seq<Row>>, entries: Histories, conv: ConvId, now: real)
    requires Coherent(messages, entries)
    ensures Coherent(messages, Next(entries, GetCall(conv, now)))
    ensures Lookup(entries, conv, now).Some? ==>
              IsAnswer(RowsOf(messages, conv), Rows(Lookup(entries, conv, now).value))
  {
  }

  lemma SetCoherent(messages: map<ConvId, seq<Row>>, entries: Histories, conv: ConvId, found: seq<Message>, ttl: real,
                    now: real)
    requires Coherent(messages, entries) && IsAnswer(RowsOf(messages, conv), Rows(found))
    ensures Coherent(messages, Next(entries, SetCall(conv, found, ttl, now)))
  {
  }

  lemma DropCoherent(messages: map<ConvId, seq<Row>>, entries: Histories, conv: ConvId)
    requires Coherent(messages, entries)
    ensures Coherent(messages - {conv}, entries) <==> (conv in entries ==> RowsOf(messages, conv) == [])
  {
    var left := messages - {conv};
    assert RowsOf(left, conv) == [];
    forall c | c in entries && c != conv ensures IsAnswer(RowsOf(left, c), Rows(entries[c].val)) {
      assert RowsOf(left, c) == RowsOf(messages, c);
    }
    if conv in entries {
      SameSize(RowsOf(messages, conv), Rows(entries[conv].val));
      if IsAnswer([], Rows(entries[conv].val)) {
        SameSize([], Rows(entries[conv].val));
      }
    }
  }

  lemma SameSize(stored: seq<Row>, answer: seq<Row>)
    requires IsAnswer(stored, answer)
    ensures |answer| == |stored|
  {
    assert |multiset(answer)| == |multiset(stored)|;
  }

  /** Conversations without rows in the batch keep theirs; the others lose their entries. */
  lemma BatchCoherent(messages: map<ConvId, seq<Row>>, entries: Histories, batch: Batch)
    requires Coherent(messages, entries)
    ensures Coherent(WithBatch(messages, batch), entries - SpansOf(messages, batch).Keys)
  {
    var left := entries - SpansOf(messages, batch).Keys;
    forall c | c in left ensures IsAnswer(RowsOf(WithBatch(messages, batch), c), Rows(left[c].val)) {
      assert c in messages ==> messages[c] + OwnRows(batch, c) == messages[c];
    }
  }

  /** The conversations with rows in the batch. */
  lemma {:induction false} SpansCover(messages: map<ConvId, seq<Row>>, batch: Batch)
    requires forall p :: p in batch ==> p.0 in messages
    ensures SpansOf(messages, batch).Keys == set p | p in batch :: p.0
    decreases |batch|
  {
    if batch != [] {
      var n := |batch| - 1;
      assert batch == batch[..n] + [batch[n]];
      SpansCover(messages, batch[..n]);
      forall c | c in messages
        ensures OwnRows(batch, c) != [] <==> c in (set p | p in batch[..n] :: p.0) || c == batch[n].0
      {
        assert OwnRows(batch[..n], c) != [] <==> c in SpansOf(messages, batch[..n]).Keys;
      }
    }
  }

  lemma PutTake(held: map<Task, Held>, task: Task, h: Held)
    requires task !in held
    ensures held[task := h] - {task} == held
  {
  }

  class ConversationStore {
    var messages: map<ConvId, seq<Row>>
    var held: map<Task, Held>
    const cache: CacheManager<ConvId, seq<Message>>
    const ttl: real

    constructor (ttl: real)
      ensures Valid() && fresh(cache) && State() == Started(ttl)
    {
      this.ttl, messages, held := ttl, map[], map[];
      cache := new CacheManager();
    }

    function State(): Server
      reads this, cache
    {
      Server(messages, cache.entries, held, ttl)
    }

    /** Every cache entry, expired or not, is an answer to the history query as of now. */
    ghost predicate Valid()
      reads this, cache
    {
      Coherent(messages, cache.entries)
    }

    predicate Stored(id: MessageId)
      reads this
    {
      exists c, k :: c in messages && 0 <= k < |messages[c]| && messages[c][k].id == id
    }

    method CreateConversation(conv: ConvId)
      requires Valid() && conv !in messages
      modifies `messages
      ensures Valid() && State() == After(old(State()), Open(conv))
    {
      messages := messages[conv := []];
    }

    /** `append_to_history_cache`. */
    method AppendToHistoryCache(conv: ConvId, message: Message, now: real)
      modifies cache
      ensures cache.entries == Appended(old(cache.entries), conv, message, ttl, now)
    {
      var cached := cache.Get(conv, now);
      if cached.None? {
        return;
      }
      var list := cached.value;
      if list != [] && list[|list| - 1].row.id == message.row.id {
        return;
      }
      list := list + [message];
      cache.Set(conv, list, ttl, now);
    }

    /** No conversation has a message of that id. */
    predicate Unknown(id: MessageId)
      reads this
    {
      forall c, k :: c in messages && 0 <= k < |messages[c]| ==> messages[c][k].id != id
    }

    /** The INSERT of an added message; it fails for an unknown conversation or a known id. */
    method BeginAdd(task: Task, conv: ConvId, message: Message) returns (added: bool)
      requires task !in held
      modifies `messages, `held
      ensures added <==> conv in old(messages) && old(Unknown(message.row.id))
      ensures added && (forall r :: r in old(messages)[conv] ==> r.createdAt < message.row.createdAt) ==>
                State() == After(old(State()), Insert(task, conv, message))
      ensures messages == if added then old(messages)[conv := old(messages)[conv] + [message.row]] else old(messages)
      ensures held == if added then old(held)[task := Added(conv, |old(messages)[conv]|, message)] else old(held)
    {
      if conv !in messages || Stored(message.row.id) {
        return false;
      }
      held := held[task := Added(conv, |messages[conv]|, message)];
      messages := messages[conv := messages[conv] + [message.row]];
      added := true;
    }
    /** The rest of it, once the database has answered. */
    method EndAdd(task: Task, now: real)
      requires task in held && held[task].Added?
      modifies `held, cache
      ensures State() == After(old(State()), Append(task, now))
      ensures held == old(held) - {task}
      ensures cache.entries ==
                Appended(old(cache.entries), old(held)[task].conv, old(held)[task].message, ttl, now)
    {
      var add := held[task];
      held := held - {task};
      AppendToHistoryCache(add.conv, add.message, now);
    }

    /** `add_message`, `add_message_returning` and `add_message_with_build_ms`, with nothing in
        between. The cache stays coherent exactly when the new row is in order, and a row newer
        than all stored ones is. */
    method AddMessage(task: Task, conv: ConvId, message: Message, now: real) returns (added: bool)
      requires Valid() && task !in held
      modifies this, cache
      ensures added <==> conv in old(messages) && old(Unknown(message.row.id))
      ensures messages == if added then old(messages)[conv := old(messages)[conv] + [message.row]] else old(messages)
      ensures held == old(held)
      ensures cache.entries == if added then Appended(old(cache.entries), conv, message, ttl, now)
                               else old(cache.entries)
      ensures Valid() <==> (added ==> InOrder(old(cache.entries), conv, message, now))
      ensures added && (forall r :: r in old(messages)[conv] ==> r.createdAt < message.row.createdAt) ==> Valid()
    {
      if conv in messages && !Stored(message.row.id) {
        AppendCoherent(messages, cache.entries, conv, message, ttl, now);
        NewerInOrder(messages, cache.entries, conv, message, now);
      }
      added := BeginAdd(task, conv, message);
      if added {
        PutTake(old(held), task, Added(conv, |old(messages)[conv]|, message));
        EndAdd(task, now);
      }
    }

    /** The history query, its rows as message dicts. */
    method FetchRows(conv: ConvId) returns (found: seq<Message>)
      ensures IsAnswer(RowsOf(messages, conv), Rows(found))
    {
      var rows := OrderByCreatedAt(RowsOf(messages, conv));
      found := seq(|rows|, k requires 0 <= k < |rows| => Message(rows[k], None));
      assert Rows(found) == rows;
    }

    /** A cache miss of `get_conversation_messages` up to the answer of the database. */
    method BeginGet(task: Task, conv: ConvId) returns (found: seq<Message>)
      requires task !in held
      modifies `held
      ensures Enabled(old(State()), Query(task, conv, found))
      ensures State() == After(old(State()), Query(task, conv, found))
      ensures held == old(held)[task := Queried(conv, |RowsOf(messages, conv)|, found)]
      ensures IsAnswer(RowsOf(messages, conv), Rows(found))
    {
      found := FetchRows(conv);
      held := held[task := Queried(conv, |RowsOf(messages, conv)|, found)];
    }

    /** Caching that answer. */
    method EndGet(task: Task, now: real)
      requires task in held && held[task].Queried?
      modifies `held, cache
      ensures State() == After(old(State()), Store(task, now))
      ensures held == old(held) - {task}
      ensures cache.entries == Next(old(cache.entries), SetCall(old(held)[task].conv, old(held)[task].found, ttl, now))
    {
      var query := held[task];
      held := held - {task};
      cache.Set(query.conv, query.found, ttl, now);
    }

    /** `get_conversation_messages`, with nothing in between. */
    method GetMessages(task: Task, conv: ConvId, useCache: bool, now: real) returns (found: seq<Message>)
      requires Valid() && task !in held
      modifies `held, cache
      ensures Valid() && IsAnswer(RowsOf(messages, conv), Rows(found)) && held == old(held)
      ensures multiset(Rows(found)) == multiset(if conv in messages then messages[conv] else [])
      ensures forall i, j :: 0 <= i < j < |found| ==> found[i].row.createdAt <= found[j].row.createdAt
      ensures useCache ==> Lookup(cache.entries, conv, now) == Some(found) || ttl <= 0.0
    {
      if useCache {
        GetCoherent(messages, cache.entries, conv, now);
        var cached := cache.Get(conv, now);
        if cached.Some? {
          return cached.value;
        }
        found := BeginGet(task, conv);
        SetCoherent(messages, cache.entries, conv, found, ttl, now);
        PutTake(old(held), task, Queried(conv, |RowsOf(messages, conv)|, found));
        EndGet(task, now);
      } else {
        found := FetchRows(conv);
      }
    }

    /** The `executemany` of a batch. */
    method InsertRows(batch: Batch)
      requires forall p :: p in batch ==> p.0 in messages
      modifies `messages
      ensures messages == WithBatch(old(messages), batch)
    {
      for n := 0 to |batch|
        invariant messages.Keys == old(messages).Keys
        invariant forall c :: c in messages ==> messages[c] == old(messages)[c] + OwnRows(batch[..n], c)
      {
        var (c, row) := batch[n];
        assert batch[n] in batch;
        OwnRowsSnoc(batch, n);
        ConcatAssoc(old(messages)[c], OwnRows(batch[..n], c), [row]);
        messages := messages[c := messages[c] + [row]];
      }
      assert batch[..|batch|] == batch;
    }

    /** `invalidate_history_cache` for every conversation of a batch. */
    method InvalidateAll(convs: set<ConvId>)
      modifies cache
      ensures cache.entries == old(cache.entries) - convs
    {
      var done: set<ConvId> := {};
      while convs - done != {}
        invariant done <= convs && cache.entries == old(cache.entries) - done
        decreases convs - done
      {
        var c :| c in convs - done;
        cache.Delete(c);
        assert old(cache.entries) - done - {c} == old(cache.entries) - (done + {c});
        done := done + {c};
      }
      forall c | c in convs ensures c in done {
        assert c !in convs - done;
      }
      assert done == convs;
    }

    /** Every conversation of the batch exists, and its ids are new and distinct. */
    predicate Insertable(batch: Batch)
      reads this
    {
      && (forall k :: 0 <= k < |batch| ==> batch[k].0 in messages && !Stored(batch[k].1.id))
      && (forall k, l :: 0 <= k < l < |batch| ==> batch[k].1.id != batch[l].1.id)
    }

    predicate AllNew(batch: Batch)
      reads this
    {
      && (forall k :: 0 <= k < |batch| ==> batch[k].0 in messages && Unknown(batch[k].1.id))
      && (forall k, l :: 0 <= k < |batch| && 0 <= l < |batch| && batch[k].1.id == batch[l].1.id ==> k == l)
    }

    /** The statement of `add_messages_batch`: all rows or none. */
    method BeginBatch(task: Task, batch: Batch) returns (added: bool)
      requires task !in held
      modifies `messages, `held
      ensures added <==> old(AllNew(batch))
      ensures added && Enabled(old(State()), InsertBatch(task, batch)) ==>
                State() == After(old(State()), InsertBatch(task, batch))
      ensures messages == if added then WithBatch(old(messages), batch) else old(messages)
      ensures held == if added then old(held)[task := Batched(SpansOf(old(messages), batch))] else old(held)
    {
      added := Insertable(batch);
      if added {
        held := held[task := Batched(SpansOf(messages, batch))];
        InsertRows(batch);
      }
    }

    /** The rest of it: every conversation of the batch is invalidated. */
    method EndBatch(task: Task)
      requires task in held && held[task].Batched?
      modifies `held, cache
      ensures State() == After(old(State()), Invalidate(task))
      ensures held == old(held) - {task} && cache.entries == old(cache.entries) - old(held)[task].spans.Keys
    {
      var convs := held[task].spans.Keys;
      held := held - {task};
      InvalidateAll(convs);
    }

    /** `add_messages_batch`, with nothing in between. The times of the batch are not constrained,
        because every conversation it touches is invalidated. */
    method AddBatch(task: Task, batch: Batch) returns (added: bool)
      requires Valid() && task !in held
      modifies this, cache
      ensures Valid() && held == old(held)
      ensures added <==> old(AllNew(batch))
      ensures messages == if added then WithBatch(old(messages), batch) else old(messages)
      ensures cache.entries == old(cache.entries) - if added then (set p | p in batch :: p.0) else {}
    {
      added := BeginBatch(task, batch);
      if added {
        PutTake(old(held), task, Batched(SpansOf(old(messages), batch)));
        BatchCoherent(old(messages), cache.entries, batch);
        SpansCover(old(messages), batch);
        EndBatch(task);
      }
    }

    /** `delete_conversation` leaves the cache alone, so its history stays readable from the
        cache exactly when a non-empty copy is there. */
    method DeleteConversation(conv: ConvId) returns (deleted: bool)
      requires Valid()
      modifies `messages
      ensures deleted == (conv in old(messages)) && messages == old(messages) - {conv}
      ensures State() == After(old(State()), Drop(conv))
      ensures Valid() <==> (conv in cache.entries ==> RowsOf(old(messages), conv) == [])
    {
      deleted := conv in messages;
      DropCoherent(messages, cache.entries, conv);
      messages := messages - {conv};
    }
  }
}
