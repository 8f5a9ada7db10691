/** Batch ingestion: one transaction per batch, ON CONFLICT (source, event_id) DO NOTHING per row,
    clients that hold and resend, interleaved row by row. */
module Ingest {
  import opened Prelude

  // The idempotency key (source, event_id), and the rest of the event.
  datatype Key = Key(source: string, eventId: string)
  datatype Event = Event(key: Key, body: string)

  type Table = map<Key, string>

  // The serial meaning of a batch: each row lands unless its key is there already.
  function Land(t: Table, rows: seq<Event>): Table
    decreases |rows|
  {
    if rows == [] then t
    else
      var e := rows[0];
      Land(if e.key in t then t else t[e.key := e.body], rows[1..])
  }

  function Keys(rows: seq<Event>): set<Key> {
    set i | 0 <= i < |rows| :: rows[i].key
  }

  // The row a batch would keep for a key: its first one.
  function FirstBody(rows: seq<Event>, k: Key): Option<string> {
    if rows == [] then None
    else if rows[0].key == k then Some(rows[0].body)
    else FirstBody(rows[1..], k)
  }

  lemma {:induction false} KeysCons(rows: seq<Event>)
    requires rows != []
    ensures Keys(rows) == {rows[0].key} + Keys(rows[1..])
  {
    forall k | k in Keys(rows) ensures k in {rows[0].key} + Keys(rows[1..]) {
      var i :| 0 <= i < |rows| && rows[i].key == k;
      if i > 0 { assert rows[1..][i - 1].key == k; }
    }
    forall k | k in Keys(rows[1..]) ensures k in Keys(rows) {
      var i :| 0 <= i < |rows[1..]| && rows[1..][i].key == k;
      assert rows[i + 1].key == k;
    }
    assert rows[0].key in Keys(rows);
  }

  /** A landed batch adds exactly its new keys, each with the batch's first row for it, and keeps
      every row that was there: first writer wins. */
  lemma {:induction false} LandIsUnion(t: Table, rows: seq<Event>)
    ensures Land(t, rows).Keys == t.Keys + Keys(rows)
    ensures forall k :: k in t ==> Land(t, rows)[k] == t[k]
    ensures forall k :: k in Keys(rows) && k !in t ==> FirstBody(rows, k) == Some(Land(t, rows)[k])
    decreases |rows|
  {
    if rows != [] {
      var e := rows[0];
      var t1 := if e.key in t then t else t[e.key := e.body];
      KeysCons(rows);
      LandIsUnion(t1, rows[1..]);
    } else {
      assert Keys(rows) == {};
    }
  }

  /** Landing a batch again changes nothing: a resend accepts 0. */
  lemma ResendAcceptsNothing(t: Table, rows: seq<Event>)
    requires Keys(rows) <= t.Keys
    ensures Land(t, rows) == t
  {
    LandIsUnion(t, rows);
    assert Land(t, rows).Keys == t.Keys;
  }

  lemma {:induction false} KeysSize(rows: seq<Event>)
    ensures |Keys(rows)| <= |rows|
  {
    if rows == [] {
      assert Keys(rows) == {};
    } else {
      KeysSize(rows[1..]);
      KeysCons(rows);
    }
  }

  /** A batch grows the table by at most its size and never shrinks it. */
  lemma Growth(t: Table, rows: seq<Event>)
    ensures |t| <= |Land(t, rows)| <= |t| + |rows|
  {
    LandIsUnion(t, rows);
    KeysSize(rows);
    var added := Keys(rows) - t.Keys;
    assert Land(t, rows).Keys == t.Keys + added;
    SubsetSize(added, Keys(rows));
  }

  lemma {:induction false} LandAppend(t: Table, rows: seq<Event>, e: Event)
    ensures Land(t, rows + [e]) == var u := Land(t, rows); if e.key in u then u else u[e.key := e.body]
    decreases |rows|
  {
    if rows == [] {
      assert rows + [e] == [e];
    } else {
      var t1 := if rows[0].key in t then t else t[rows[0].key := rows[0].body];
      assert (rows + [e])[1..] == rows[1..] + [e];
      LandAppend(t1, rows[1..], e);
    }
  }

  // ---- insertBatch, alone ----

  // Which call of insertBatch fails: Begin, the n-th insert, or the commit, whose loss may be
  // only of the acknowledgement.
  datatype Weather = Fine | BeginFails | InsertFails(n: nat) | CommitFails(durable: bool)

  class Store {
    var events: Table       // committed rows
    var work: Table         // what the open transaction sees

    constructor ()
      ensures events == map[]
    {
      events, work := map[], map[];
    }

    /** The :execrows insert: 1 if the row is new, 0 if its key is taken. */
    method InsertEvent(e: Event) returns (n: nat)
      modifies this`work
      ensures work == if e.key in old(work) then old(work) else old(work)[e.key := e.body]
      ensures n == |work| - |old(work)|
    {
      n := 0;
      if e.key !in work {
        work := work[e.key := e.body];
        n := 1;
      }
    }

    /** One batch: all of it or nothing, and accepted is the table's growth. An error leaves the
        table alone unless the commit was durable, when the whole batch has landed. */
    method InsertBatch(rows: seq<Event>, w: Weather) returns (accepted: nat, ok: bool)
      modifies this
      ensures ok ==> events == Land(old(events), rows) && accepted == |events| - |old(events)|
      ensures !ok ==> accepted == 0 && events == if w == CommitFails(true) then Land(old(events), rows) else old(events)
      ensures w.Fine? ==> ok
      ensures w.BeginFails? || w.CommitFails? ==> !ok
      ensures w.InsertFails? ==> (ok <==> w.n >= |rows|)
      ensures work == events
    {
      if w.BeginFails? { work := events; return 0, false; }
      work := events;
      accepted := 0;
      for i := 0 to |rows|
        invariant events == old(events)
        invariant work == Land(events, rows[..i]) && accepted == |work| - |events|
        invariant w.InsertFails? ==> i <= w.n
      {
        if w == InsertFails(i) { work := events; return 0, false; }
        assert rows[..i + 1] == rows[..i] + [rows[i]];
        LandAppend(events, rows[..i], rows[i]);
        var n := InsertEvent(rows[i]);
        accepted := accepted + n;
      }
      assert rows[..|rows|] == rows;
      if w.CommitFails? {
        if w.durable { events := work; }
        work := events;
        return 0, false;
      }
      events := work;
      ok := true;
    }
  }

  // ---- any number of batches, interleaved ----

  // A batch transaction: rows not yet inserted, rows inserted but not committed, the count so far.
  datatype Tx =
    | Open(batch: seq<Event>, done: nat, pending: Table, accepted: nat)
    | Committed(batch: seq<Event>, accepted: nat)
    | Aborted

  datatype State = State(
    table: Table,
    txs: seq<Tx>,
    commits: seq<seq<Event>>,   // committed batches in commit order
    counts: seq<nat>)           // what each counted as accepted

  datatype Action =
    | Begin(batch: seq<Event>)           // a first send or a resend, no matter of what
    | Insert(i: nat)
    | Commit(i: nat)                     // with or without its acknowledgement arriving
    | Abort(i: nat)                      // error, deadlock victim or lost connection

  const START := State(map[], [], [], [])

  function Pending(tx: Tx): Table {
    if tx.Open? then tx.pending else map[]
  }

  // The unique index makes an insert wait for the transaction that holds the same uncommitted key.
  ghost predicate NotHeldElsewhere(s: State, i: nat, k: Key) {
    forall j :: 0 <= j < |s.txs| && j != i ==> k !in Pending(s.txs[j])
  }

  ghost predicate Enabled(s: State, a: Action) {
    && (!a.Begin? ==> a.i < |s.txs| && s.txs[a.i].Open?)
    && (a.Insert? ==> s.txs[a.i].done < |s.txs[a.i].batch|
                      && NotHeldElsewhere(s, a.i, s.txs[a.i].batch[s.txs[a.i].done].key))
    && (a.Commit? ==> s.txs[a.i].done >= |s.txs[a.i].batch|)
  }

  ghost function Step(s: State, a: Action): State
    requires Enabled(s, a)
  {
    match a
    case Begin(batch) => s.(txs := s.txs + [Open(batch, 0, map[], 0)])
    case Insert(i) =>
      var tx := s.txs[i];
      var e := tx.batch[tx.done];
      if e.key in s.table || e.key in tx.pending then s.(txs := s.txs[i := tx.(done := tx.done + 1)])
      else s.(txs := s.txs[i := Open(tx.batch, tx.done + 1, tx.pending[e.key := e.body], tx.accepted + 1)])
    case Commit(i) =>
      var tx := s.txs[i];
      State(s.table + tx.pending, s.txs[i := Committed(tx.batch, tx.accepted)],
            s.commits + [tx.batch], s.counts + [tx.accepted])
    case Abort(i) => s.(txs := s.txs[i := Aborted])
  }

  ghost predicate Run(s: State, acts: seq<Action>, s': State)
    decreases |acts|
  {
    if acts == [] then s' == s
    else Enabled(s, acts[0]) && Run(Step(s, acts[0]), acts[1..], s')
  }

  // The serial table after the committed batches, and what each added.
  function Serial(commits: seq<seq<Event>>): Table {
    if commits == [] then map[] else Land(Serial(commits[..|commits| - 1]), commits[|commits| - 1])
  }

  function Sum(ns: seq<nat>): nat {
    if ns == [] then 0 else Sum(ns[..|ns| - 1]) + ns[|ns| - 1]
  }

  // What an open transaction has done so far is what its prefix would do to today's table.
  ghost predicate TxOk(t: Table, tx: Tx) {
    tx.Open? ==>
      && tx.done <= |tx.batch|
      && tx.pending.Keys !! t.Keys
      && t + tx.pending == Land(t, tx.batch[..tx.done])
      && tx.accepted == |tx.pending|
  }

  ghost predicate AllOk(s: State) {
    forall i :: 0 <= i < |s.txs| ==> TxOk(s.table, s.txs[i])
  }

  ghost predicate Disjoint(s: State) {
    forall i, j {:trigger Pending(s.txs[i]), Pending(s.txs[j])} ::
      0 <= i < |s.txs| && 0 <= j < |s.txs| && i != j ==> Pending(s.txs[i]).Keys !! Pending(s.txs[j]).Keys
  }

  ghost predicate Books(table: Table, commits: seq<seq<Event>>, counts: seq<nat>) {
    && table == Serial(commits)
    && |counts| == |commits|
    && Sum(counts) == |table|
    && (forall n :: 0 <= n < |commits| ==> counts[n] == |Serial(commits[..n + 1])| - |Serial(commits[..n])|)
  }

  ghost predicate Inv(s: State) {
    AllOk(s) && Disjoint(s) && Books(s.table, s.commits, s.counts)
  }

  // Rows with keys t already has or lands anew are unaffected by extra rows p under other keys.
  lemma LandShift(t: Table, p: Table, rows: seq<Event>)
    requires p.Keys !! t.Keys && p.Keys !! (Land(t, rows).Keys - t.Keys)
    ensures Land(t + p, rows) == Land(t, rows) + p
  {
    LandIsUnion(t, rows);
    LandIsUnion(t + p, rows);
    var a, b := Land(t + p, rows), Land(t, rows) + p;
    assert a.Keys == b.Keys;
    forall k | k in a ensures a[k] == b[k] {
      if k in t {
      } else if k in p {
        assert (t + p)[k] == p[k];
      } else {
        assert k in Keys(rows);
      }
    }
  }

  lemma Swap(t: Table, p: Table, q: Table)
    requires p.Keys !! q.Keys
    ensures (t + p) + q == (t + q) + p
  {
  }

  // A commit elsewhere that shares no key with tx leaves tx's view right.
  lemma OtherCommit(t: Table, p: Table, tx: Tx)
    requires TxOk(t, tx) && p.Keys !! t.Keys && Pending(tx).Keys !! p.Keys
    ensures TxOk(t + p, tx)
  {
    if tx.Open? {
      var rows := tx.batch[..tx.done];
      assert Land(t, rows).Keys - t.Keys == tx.pending.Keys;
      LandShift(t, p, rows);
      Swap(t, p, tx.pending);
    }
  }

  // The row is skipped: its key is committed or already pending here.
  lemma SkipTxOk(t: Table, tx: Tx)
    requires TxOk(t, tx) && tx.Open? && tx.done < |tx.batch|
    requires tx.batch[tx.done].key in t || tx.batch[tx.done].key in tx.pending
    ensures TxOk(t, tx.(done := tx.done + 1))
  {
    LandNext(t, tx.batch, tx.done);
  }

  lemma LandNext(t: Table, batch: seq<Event>, n: nat)
    requires n < |batch|
    ensures var u, e := Land(t, batch[..n]), batch[n];
      Land(t, batch[..n + 1]) == if e.key in u then u else u[e.key := e.body]
  {
    assert batch[..n + 1] == batch[..n] + [batch[n]];
    LandAppend(t, batch[..n], batch[n]);
  }

  lemma AddTxOk(t: Table, tx: Tx)
    requires TxOk(t, tx) && tx.Open? && tx.done < |tx.batch|
    requires tx.batch[tx.done].key !in t && tx.batch[tx.done].key !in tx.pending
    ensures var e := tx.batch[tx.done];
      TxOk(t, Open(tx.batch, tx.done + 1, tx.pending[e.key := e.body], tx.accepted + 1))
  {
    var e := tx.batch[tx.done];
    LandNext(t, tx.batch, tx.done);
    assert e.key !in t + tx.pending;
    Push(t, tx.pending, e.key, e.body);
  }

  lemma Push(t: Table, q: Table, k: Key, v: string)
    requires k !in t && k !in q
    ensures t + q[k := v] == (t + q)[k := v] && |q[k := v]| == |q| + 1
  {
    assert q[k := v].Keys == q.Keys + {k};
  }

  lemma ReplaceKeeps(s: State, i: nat, tx: Tx, k: Key)
    requires Inv(s) && i < |s.txs| && TxOk(s.table, tx)
    requires NotHeldElsewhere(s, i, k) && Pending(tx).Keys <= Pending(s.txs[i]).Keys + {k}
    ensures Inv(s.(txs := s.txs[i := tx]))
  {
    var txs := s.txs[i := tx];
    forall m, n | 0 <= m < |txs| && 0 <= n < |txs| && m != n ensures Pending(txs[m]).Keys !! Pending(txs[n]).Keys {
      assert Pending(s.txs[m]).Keys !! Pending(s.txs[n]).Keys;
      if m == i { assert k !in Pending(s.txs[n]); }
      if n == i { assert k !in Pending(s.txs[m]); }
    }
  }

  lemma InsertKeeps(s: State, i: nat)
    requires Inv(s) && Enabled(s, Insert(i))
    ensures Inv(Step(s, Insert(i)))
  {
    var tx := s.txs[i];
    var e := tx.batch[tx.done];
    assert TxOk(s.table, tx);
    if e.key in s.table || e.key in tx.pending {
      SkipTxOk(s.table, tx);
      ReplaceKeeps(s, i, tx.(done := tx.done + 1), e.key);
    } else {
      AddTxOk(s.table, tx);
      ReplaceKeeps(s, i, Open(tx.batch, tx.done + 1, tx.pending[e.key := e.body], tx.accepted + 1), e.key);
    }
  }

  lemma BooksCommit(table: Table, commits: seq<seq<Event>>, counts: seq<nat>, pending: Table, batch: seq<Event>)
    requires Books(table, commits, counts) && pending.Keys !! table.Keys && table + pending == Land(table, batch)
    ensures Books(table + pending, commits + [batch], counts + [|pending|])
  {
    var n := |commits|;
    var commits', counts' := commits + [batch], counts + [|pending|];
    assert commits'[..n] == commits && counts'[..n] == counts;
    assert (table + pending).Keys == table.Keys + pending.Keys;
    assert |table + pending| == |table| + |pending|;
    forall m | 0 <= m < |commits'| ensures counts'[m] == |Serial(commits'[..m + 1])| - |Serial(commits'[..m])| {
      if m < n {
        assert commits'[..m + 1] == commits[..m + 1] && commits'[..m] == commits[..m];
      } else {
        assert commits'[..m + 1] == commits';
      }
    }
  }

  lemma CommitKeeps(s: State, i: nat)
    requires Inv(s) && Enabled(s, Commit(i))
    ensures Inv(Step(s, Commit(i)))
  {
    var tx := s.txs[i];
    var s' := Step(s, Commit(i));
    assert TxOk(s.table, tx);
    assert tx.batch[..tx.done] == tx.batch;
    BooksCommit(s.table, s.commits, s.counts, tx.pending, tx.batch);
    forall j | 0 <= j < |s'.txs| ensures TxOk(s'.table, s'.txs[j]) {
      if j != i {
        assert Pending(s.txs[j]).Keys !! Pending(s.txs[i]).Keys;
        OtherCommit(s.table, tx.pending, s.txs[j]);
      }
    }
    assert Pending(s'.txs[i]) == map[];
  }

  lemma NewTxOk(t: Table, batch: seq<Event>)
    ensures TxOk(t, Open(batch, 0, map[], 0))
  {
    var none: Table := map[];
    assert batch[..0] == [] && t + none == t;
  }

  lemma BeginKeeps(s: State, batch: seq<Event>)
    requires Inv(s)
    ensures Inv(Step(s, Begin(batch)))
  {
    var s' := Step(s, Begin(batch));
    NewTxOk(s.table, batch);
    assert Pending(s'.txs[|s.txs|]) == map[];
  }

  lemma StepKeeps(s: State, a: Action)
    requires Inv(s) && Enabled(s, a)
    ensures Inv(Step(s, a))
  {
    match a
    case Begin(batch) => BeginKeeps(s, batch);
    case Insert(i) => InsertKeeps(s, i);
    case Commit(i) => CommitKeeps(s, i);
    case Abort(i) => assert Pending(Step(s, a).txs[i]) == map[];
  }

  lemma {:induction false} RunKeeps(s: State, acts: seq<Action>, s': State)
    requires Inv(s) && Run(s, acts, s')
    ensures Inv(s') && s.commits <= s'.commits && s.counts <= s'.counts
    decreases |acts|
  {
    if acts == [] {
    } else {
      StepKeeps(s, acts[0]);
      RunKeeps(Step(s, acts[0]), acts[1..], s');
    }
  }

  /** Exactly once over every interleaving of sends, resends, aborts and commits whose reply is
      lost: the table is that of the committed batches landed one after the other in commit order,
      first writer kept; what each commit counted as accepted is its own growth of the table and
      at most its size; and the counts add up to the table. */
  lemma ExactlyOnce(acts: seq<Action>, s: State)
    requires Run(START, acts, s)
    ensures s.table == Serial(s.commits) && |s.counts| == |s.commits|
    ensures Sum(s.counts) == |s.table|
    ensures forall n :: 0 <= n < |s.commits| ==>
      s.counts[n] == |Serial(s.commits[..n + 1])| - |Serial(s.commits[..n])| && s.counts[n] <= |s.commits[n]|
    ensures forall k :: k in s.table ==> exists n :: 0 <= n < |s.commits| && k in Keys(s.commits[n])
    ensures forall n, k :: 0 <= n < |s.commits| && k in Keys(s.commits[n]) ==> k in s.table
  {
    RunKeeps(START, acts, s);
    forall n | 0 <= n < |s.commits| ensures s.counts[n] <= |s.commits[n]| {
      assert s.commits[..n + 1][..n] == s.commits[..n];
      Growth(Serial(s.commits[..n]), s.commits[n]);
      assert s.counts[n] == |Serial(s.commits[..n + 1])| - |Serial(s.commits[..n])|;
    }
    SerialKeys(s.commits);
  }

  lemma {:induction false} SerialKeys(commits: seq<seq<Event>>)
    ensures forall k :: k in Serial(commits) <==> exists n :: 0 <= n < |commits| && k in Keys(commits[n])
  {
    if commits == [] {
    } else {
      var m := |commits| - 1;
      SerialKeys(commits[..m]);
      LandIsUnion(Serial(commits[..m]), commits[m]);
      forall k | exists n :: 0 <= n < |commits| && k in Keys(commits[n]) ensures k in Serial(commits) {
        var n :| 0 <= n < |commits| && k in Keys(commits[n]);
        if n < m { assert commits[..m][n] == commits[n]; }
      }
      forall k | k in Serial(commits) ensures exists n :: 0 <= n < |commits| && k in Keys(commits[n]) {
        if k in Serial(commits[..m]) {
          var n :| 0 <= n < m && k in Keys(commits[..m][n]);
          assert k in Keys(commits[n]);
        }
      }
    }
  }

  lemma {:induction false} SerialKeeps(commits: seq<seq<Event>>, n: nat, k: Key)
    requires n <= |commits| && k in Serial(commits[..n])
    ensures k in Serial(commits) && Serial(commits)[k] == Serial(commits[..n])[k]
    decreases |commits|
  {
    if n == |commits| {
      assert commits[..n] == commits;
    } else {
      var m := |commits| - 1;
      assert commits[..m][..n] == commits[..n];
      SerialKeeps(commits[..m], n, k);
      LandIsUnion(Serial(commits[..m]), commits[m]);
    }
  }

  /** First writer kept: the row under a key is the first one for it in the first committed batch
      that has it, whatever was sent later. */
  lemma FirstWriterKept(acts: seq<Action>, s: State, n: nat, k: Key)
    requires Run(START, acts, s) && n < |s.commits| && k in Keys(s.commits[n])
    requires forall m :: 0 <= m < n ==> k !in Keys(s.commits[m])
    ensures k in s.table && FirstBody(s.commits[n], k) == Some(s.table[k])
  {
    RunKeeps(START, acts, s);
    var pre := s.commits[..n];
    SerialKeys(pre);
    assert s.commits[..n + 1][..n] == pre;
    LandIsUnion(Serial(pre), s.commits[n]);
    SerialKeeps(s.commits, n + 1, k);
  }

  /** A batch that committed once, acknowledged or not, is counted as 0 in every later commit of it. */
  lemma ResendCountsZero(acts: seq<Action>, s: State, m: nat, n: nat)
    requires Run(START, acts, s) && m < n < |s.commits| && s.commits[m] == s.commits[n]
    ensures |s.counts| > n && s.counts[n] == 0
  {
    RunKeeps(START, acts, s);
    var pre := s.commits[..n];
    assert s.commits[..n + 1][..n] == pre;
    SerialKeys(pre);
    forall k | k in Keys(s.commits[n]) ensures k in Serial(pre) {
      assert pre[m] == s.commits[n] && k in Keys(pre[m]);
    }
    ResendAcceptsNothing(Serial(pre), s.commits[n]);
    assert s.counts[n] == |Serial(s.commits[..n + 1])| - |Serial(s.commits[..n])|;
  }
}
