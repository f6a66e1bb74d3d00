/** The message store: queues of ids over a message table, one file a queue. Writes are atomic and a
    queue's file name is its own, so the files are a map from queue names to saved messages. */
module MessageStore {
  import opened Sequences

  datatype Msg = Msg(id: string, queue: string, payload: string, attempts: nat, lastAttempt: real, acked: bool)

  type Table = map<string, Msg>

  function IdsOf(ms: seq<Msg>): seq<string> {
    seq(|ms|, k requires 0 <= k < |ms| => ms[k].id)
  }

  /** The ids in a queue whose message is there and not acknowledged, in queue order. */
  function Unacked(t: Table, ids: seq<string>): seq<string> {
    if ids == [] then []
    else
      var id := ids[|ids| - 1];
      Unacked(t, ids[..|ids| - 1]) + (if id in t && !t[id].acked then [id] else [])
  }

  /** What a save writes for a queue. */
  function Saved(t: Table, ids: seq<string>): seq<Msg> {
    if ids == [] then []
    else
      var id := ids[|ids| - 1];
      Saved(t, ids[..|ids| - 1]) + (if id in t then [t[id]] else [])
  }

  /** What a message adds to its queue's pending ids. */
  function Open(m: Msg): seq<string> {
    if m.acked then [] else [m.id]
  }

  /** What a load takes from a file into the queue. */
  function Kept(ms: seq<Msg>): seq<string> {
    if ms == [] then []
    else
      var m := ms[|ms| - 1];
      Kept(ms[..|ms| - 1]) + Open(m)
  }

  function QueueOf(queues: map<string, seq<string>>, q: string): seq<string> {
    if q in queues then queues[q] else []
  }

  function FileOf(disk: map<string, seq<Msg>>, q: string): seq<Msg> {
    if q in disk then disk[q] else []
  }

  predicate QueueOk(t: Table, q: string, ids: seq<string>) {
    && (forall k | 0 <= k < |ids| :: ids[k] in t && t[ids[k]].queue == q)
    && Distinct(ids)
  }

  /** Two records of one message, which differ at most in the delivery attempts. */
  predicate SameMsg(m: Msg, m': Msg) {
    m == m'.(attempts := m.attempts, lastAttempt := m.lastAttempt)
  }

  /** A queue's file holds only that queue's messages, each once, in agreement with the table on all but
      delivery attempts, and reading it back yields the pending ids in order. */
  predicate FileOk(t: Table, q: string, ids: seq<string>, ms: seq<Msg>) {
    && (forall k | 0 <= k < |ms| ::
          ms[k].queue == q && ms[k].id in t && SameMsg(t[ms[k].id], ms[k]))
    && (forall i, j | 0 <= i < j < |ms| :: ms[i].id != ms[j].id)
    && Kept(ms) == Unacked(t, ids)
  }

  predicate RowOk(t: Table, queues: map<string, seq<string>>, id: string) {
    id in t && t[id].id == id && (!t[id].acked ==> id in QueueOf(queues, t[id].queue))
  }

  predicate AtQueue(t: Table, queues: map<string, seq<string>>, disk: map<string, seq<Msg>>, q: string) {
    QueueOk(t, q, QueueOf(queues, q)) && FileOk(t, q, QueueOf(queues, q), FileOf(disk, q))
  }

  /** Every message sits under its own id and, unless acknowledged, waits in its queue; every queue
      holds its own messages once and its file agrees with it. */
  ghost predicate StoreOk(t: Table, queues: map<string, seq<string>>, disk: map<string, seq<Msg>>) {
    && (forall id {:trigger RowOk(t, queues, id)} | id in t :: RowOk(t, queues, id))
    && (forall q {:trigger AtQueue(t, queues, disk, q)} :: AtQueue(t, queues, disk, q))
  }

  // ---------- one queue ----------

  lemma UnackedSnoc(t: Table, ids: seq<string>, id: string)
    ensures Unacked(t, ids + [id]) == Unacked(t, ids) + (if id in t && !t[id].acked then [id] else [])
  {
    assert (ids + [id])[..|ids|] == ids;
  }

  lemma IdsSnoc(ms: seq<Msg>, m: Msg)
    ensures IdsOf(ms + [m]) == IdsOf(ms) + [m.id]
  {
  }

  lemma KeptSnoc(ms: seq<Msg>, m: Msg)
    ensures Kept(ms + [m]) == Kept(ms) + Open(m)
  {
    assert (ms + [m])[..|ms|] == ms;
  }

  lemma {:induction false} SavedKept(t: Table, ids: seq<string>)
    requires forall k | 0 <= k < |ids| :: ids[k] in t && t[ids[k]].id == ids[k]
    ensures Kept(Saved(t, ids)) == Unacked(t, ids)
  {
    if ids != [] {
      var init, id := ids[..|ids| - 1], ids[|ids| - 1];
      SavedKept(t, init);
      KeptSnoc(Saved(t, init), t[id]);
    }
  }

  lemma {:induction false} SavedAll(t: Table, ids: seq<string>)
    requires forall k | 0 <= k < |ids| :: ids[k] in t
    ensures |Saved(t, ids)| == |ids|
    ensures forall k | 0 <= k < |ids| :: Saved(t, ids)[k] == t[ids[k]]
  {
    if ids != [] {
      SavedAll(t, ids[..|ids| - 1]);
    }
  }

  lemma {:induction false} UnackedSame(t: Table, t': Table, ids: seq<string>)
    requires forall k | 0 <= k < |ids| ::
               (ids[k] in t' <==> ids[k] in t) && (ids[k] in t ==> t'[ids[k]].acked == t[ids[k]].acked)
    ensures Unacked(t', ids) == Unacked(t, ids)
  {
    if ids != [] {
      UnackedSame(t, t', ids[..|ids| - 1]);
    }
  }

  /** Acknowledging takes one id out and leaves the order of the rest. */
  lemma {:induction false} UnackedAck(t: Table, ids: seq<string>, id: string)
    requires id in t
    ensures Unacked(t[id := t[id].(acked := true)], ids) == Without(Unacked(t, ids), id)
  {
    if ids != [] {
      var init, last := ids[..|ids| - 1], ids[|ids| - 1];
      UnackedAck(t, init, id);
      if last in t && !t[last].acked {
        WithoutSnoc(Unacked(t, init), last, id);
      } else {
        assert Unacked(t, ids) == Unacked(t, init);
      }
    }
  }

  lemma {:induction false} WithoutAbsent(ids: seq<string>, id: string)
    requires id !in ids
    ensures Without(ids, id) == ids
  {
    if ids != [] {
      assert ids == ids[..|ids| - 1] + [ids[|ids| - 1]];
      WithoutAbsent(ids[..|ids| - 1], id);
    }
  }

  lemma {:induction false} UnackedSubset(t: Table, ids: seq<string>, id: string)
    ensures id in Unacked(t, ids) <==> id in ids && id in t && !t[id].acked
  {
    if ids != [] {
      assert ids == ids[..|ids| - 1] + [ids[|ids| - 1]];
      UnackedSubset(t, ids[..|ids| - 1], id);
    }
  }

  /** The tables agree on one queue's messages, delivery attempts aside. */
  predicate AgreeOn(t: Table, t': Table, q: string) {
    forall id | id in t && t[id].queue == q :: id in t' && SameMsg(t[id], t'[id])
  }

  lemma UntouchedQueue(t: Table, t': Table, queues: map<string, seq<string>>, queues': map<string, seq<string>>,
                       disk: map<string, seq<Msg>>, disk': map<string, seq<Msg>>, q: string)
    requires AtQueue(t, queues, disk, q) && AgreeOn(t, t', q)
    requires QueueOf(queues', q) == QueueOf(queues, q) && FileOf(disk', q) == FileOf(disk, q)
    ensures AtQueue(t', queues', disk', q)
    ensures Unacked(t', QueueOf(queues', q)) == Unacked(t, QueueOf(queues, q))
  {
    UnackedSame(t, t', QueueOf(queues, q));
  }

  /** Saving a well-formed queue makes its file agree with it. */
  lemma SavedQueue(t: Table, q: string, ids: seq<string>)
    requires QueueOk(t, q, ids) && forall k | 0 <= k < |ids| :: t[ids[k]].id == ids[k]
    ensures FileOk(t, q, ids, Saved(t, ids))
  {
    SavedKept(t, ids);
    SavedAll(t, ids);
  }

  // ---------- the store ----------

  class MessageStore {
    var messages: Table
    var queues: map<string, seq<string>>
    var disk: map<string, seq<Msg>>

    /** Every message sits under its own id; so it is in every run, whatever ids are added. */
    predicate Valid()
      reads this
    {
      Keyed(messages)
    }

    /** And so it is when no id is added twice. */
    ghost predicate Sound()
      reads this
    {
      StoreOk(messages, queues, disk)
    }

    function Pending(q: string): seq<string>
      reads this
    {
      Unacked(messages, QueueOf(queues, q))
    }

    /** Starting over a directory reads what is in it. */
    constructor (disk: map<string, seq<Msg>>)
      ensures Valid() && this.disk == disk
      ensures exists order :: ReadsAll(disk, order) && Tables(messages, queues) == ReadFiles(disk, order)
      ensures DiskSound(disk) ==> Sound() && forall q :: Pending(q) == Kept(FileOf(disk, q))
      ensures disk == map[] ==> messages == map[]
    {
      messages, queues, this.disk := map[], map[], disk;
      new;
      var _ := Load();
    }

    method SaveQueue(q: string)
      modifies this`queues, this`disk
      ensures queues == old(queues)[q := QueueOf(old(queues), q)]
      ensures disk == old(disk)[q := Saved(messages, QueueOf(old(queues), q))]
    {
      if q !in queues {
        queues := queues[q := []];
      }
      var out: seq<Msg> := [];
      for k := 0 to |queues[q]|
        invariant queues == old(queues)[q := QueueOf(old(queues), q)] && disk == old(disk)
        invariant out == Saved(messages, queues[q][..k])
      {
        if queues[q][k] in messages {
          out := out + [messages[queues[q][k]]];
        }
        assert queues[q][..k + 1][..k] == queues[q][..k];
      }
      assert queues[q][..|queues[q]|] == queues[q];
      disk := disk[q := out];
    }

    /** The message goes to the end of its queue and to disk, without a look at what is there; on a sound
        store and with a fresh id the store stays sound and one id becomes pending. */
    method Add(m: Msg)
      requires Valid()
      modifies this
      ensures Valid() && messages == old(messages)[m.id := m]
      ensures queues == old(queues)[m.queue := QueueOf(old(queues), m.queue) + [m.id]]
      ensures disk == old(disk)[m.queue := Saved(messages, queues[m.queue])]
      ensures old(Sound()) && m.id !in old(messages) ==>
                && Sound()
                && forall q :: Pending(q) == if q == m.queue then old(Pending(q)) + Open(m) else old(Pending(q))
    {
      ghost var t, qs, d := messages, queues, disk;
      messages := messages[m.id := m];
      queues := queues[m.queue := QueueOf(queues, m.queue) + [m.id]];
      SaveQueue(m.queue);
      assert queues == qs[m.queue := QueueOf(qs, m.queue) + [m.id]];
      if StoreOk(t, qs, d) && m.id !in t {
        AddKeeps(t, qs, d, m, messages, queues, disk);
      }
    }

    /** A known message is acknowledged and its queue saved; in every queue all its places go. */
    method Ack(id: string) returns (ok: bool)
      requires Valid()
      modifies this
      ensures Valid() && ok == (id in old(messages))
      ensures messages == if ok then old(messages)[id := old(messages)[id].(acked := true)] else old(messages)
      ensures ok ==> SavedSince(old(queues), old(disk), messages[id].queue)
      ensures !ok ==> queues == old(queues) && disk == old(disk)
      ensures forall q :: Pending(q) == Without(old(Pending(q)), id)
      ensures old(Sound()) ==> Sound()
    {
      ghost var t, qs, d := messages, queues, disk;
      if id !in messages {
        AbsentAck(t, qs, id);
        return false;
      }
      messages := messages[id := messages[id].(acked := true)];
      SaveQueue(messages[id].queue);
      AckPending(t, qs, id);
      if StoreOk(t, qs, d) {
        AckKeeps(t, qs, d, id, messages, queues, disk);
      }
      return true;
    }

    /** The queue's file was written, and nothing else happened to queues and files. */
    predicate SavedSince(qs: map<string, seq<string>>, d: map<string, seq<Msg>>, q: string)
      reads this
    {
      queues == qs[q := QueueOf(qs, q)] && disk == d[q := Saved(messages, QueueOf(qs, q))]
    }

    method Nack(id: string, now: real)
      requires Valid()
      modifies this
      ensures Valid()
      ensures id !in old(messages) ==> messages == old(messages) && queues == old(queues) && disk == old(disk)
      ensures id in old(messages) ==>
                var m := old(messages)[id];
                && messages == old(messages)[id := m.(attempts := m.attempts + 1, lastAttempt := now)]
                && SavedSince(old(queues), old(disk), m.queue)
      ensures forall q :: Pending(q) == old(Pending(q))
      ensures old(Sound()) ==> Sound()
    {
      ghost var t, qs, d := messages, queues, disk;
      if id in messages {
        var m := messages[id];
        messages := messages[id := m.(attempts := m.attempts + 1, lastAttempt := now)];
        SaveQueue(m.queue);
        TouchPending(t, messages, qs);
        if StoreOk(t, qs, d) {
          TouchKeeps(t, messages, qs, d);
          SaveKeeps(messages, qs, d, m.queue);
        }
      }
    }

    /** The first pending messages; a limit below one still yields one. */
    method GetPending(q: string, limit: int) returns (result: seq<Msg>)
      requires Valid()
      ensures IdsOf(result) <= Pending(q)
      ensures var most := if limit < 1 then 1 else limit;
              |result| == if |Pending(q)| <= most then |Pending(q)| else most
      ensures IdsOf(result) == FirstIds(Pending(q), limit) && InTable(messages, result)
    {
      result := [];
      var ids := QueueOf(queues, q);
      for k := 0 to |ids|
        invariant Picked(messages, ids, k, result)
        invariant result != [] ==> |result| < limit
      {
        PickOne(messages, ids, k, result);
        if ids[k] in messages && !messages[ids[k]].acked {
          result := result + [messages[ids[k]]];
          if |result| >= limit {
            EnoughPicked(messages, ids, k + 1, limit);
            return;
          }
        }
      }
      assert ids[..|ids|] == ids;
    }

    method GetQueueSize(q: string) returns (size: nat)
      ensures size == |Pending(q)|
    {
      size := 0;
      var ids := QueueOf(queues, q);
      for k := 0 to |ids|
        invariant size == |Unacked(messages, ids[..k])|
      {
        assert ids[..k + 1] == ids[..k] + [ids[k]];
        UnackedSnoc(messages, ids[..k], ids[k]);
        if ids[k] in messages && !messages[ids[k]].acked {
          size := size + 1;
        }
      }
      assert ids[..|ids|] == ids;
    }

    /** Handing messages out counts an attempt for each, in memory only; the rest of every message stays,
        and everything stays pending. What is handed out are the table's own messages. */
    method Consume(q: string, limit: int, now: real) returns (result: seq<Msg>)
      requires Valid()
      modifies this`messages
      ensures Valid() && messages.Keys == old(messages).Keys
      ensures IdsOf(result) == FirstIds(old(Pending(q)), limit) && InTable(messages, result)
      ensures forall id | id in messages ::
                messages[id] == Tried(old(messages)[id], multiset(FirstIds(old(Pending(q)), limit))[id], now)
      ensures forall x :: Pending(x) == old(Pending(x))
      ensures old(Sound()) ==> Sound()
    {
      ghost var t := messages;
      var picked := GetPending(q, limit);
      HandOut(picked, now);
      result := Current(messages, picked);
      AllHandedOut(t, messages, picked, now);
      TouchPending(t, messages, queues);
      if StoreOk(t, queues, disk) {
        TouchKeeps(t, messages, queues, disk);
      }
    }

    method HandOut(picked: seq<Msg>, now: real)
      requires InTable(messages, picked)
      modifies this`messages
      ensures HandedOut(old(messages), messages, picked, |picked|, now)
    {
      for k := 0 to |picked|
        invariant HandedOut(old(messages), messages, picked, k, now)
      {
        HandOne(old(messages), messages, picked, k, now);
        var m := messages[picked[k].id];
        messages := messages[picked[k].id := m.(attempts := m.attempts + 1, lastAttempt := now)];
      }
    }

    /** A crash loses the tables; the restart reads the files back, in whatever order the directory
        lists them, and on a sound store every queue's pending ids are as before, and every message but for
        delivery attempts. */
    method Restart()
      requires Valid()
      modifies this
      ensures Valid() && disk == old(disk)
      ensures exists order :: ReadsAll(disk, order) && Tables(messages, queues) == ReadFiles(disk, order)
      ensures old(Sound()) ==> Sound() && forall id | id in messages :: id in old(messages)
      ensures old(Sound()) ==> forall id | id in messages :: SameMsg(old(messages)[id], messages[id])
      ensures old(Sound()) ==> forall q :: Pending(q) == old(Pending(q))
    {
      ghost var t, qs := messages, queues;
      messages, queues := map[], map[];
      if StoreOk(t, qs, disk) {
        StoreIsSound(t, qs, disk);
      }
      var _ := Load();
      if StoreOk(t, qs, disk) {
        RestartKeeps(t, qs, disk, messages, queues);
      }
    }

    /** The files are read in the order the directory lists them, whichever it is; a later message takes
        the place of an earlier one with its id. From sound files every queue's pending ids are those of
        its file. */
    method Load() returns (ghost order: seq<string>)
      requires messages == map[] && queues == map[]
      modifies this`messages, this`queues
      ensures Valid() && ReadsAll(disk, order) && Tables(messages, queues) == ReadFiles(disk, order)
      ensures DiskSound(disk) ==> Sound() && forall q :: Pending(q) == Kept(FileOf(disk, q))
      ensures DiskSound(disk) ==>
                forall id | id in messages :: messages[id].id == id && messages[id] in FileOf(disk, messages[id].queue)
      ensures DiskSound(disk) ==>
                forall q, m | m in FileOf(disk, q) :: m.id in messages && messages[m.id] == m
    {
      order := [];
      var todo := disk.Keys;
      while todo != {}
        invariant todo <= disk.Keys && Listed(order, disk.Keys - todo) && Valid()
        invariant Tables(messages, queues) == ReadFiles(disk, order)
        invariant DiskSound(disk) ==> Loaded(messages, queues, disk - todo)
        decreases todo
      {
        var q :| q in todo;
        messages, queues := LoadFile(q, todo);
        ListOne(order, disk.Keys - todo, q);
        assert (order + [q])[..|order|] == order;
        order := order + [q];
        assert disk.Keys - (todo - {q}) == disk.Keys - todo + {q};
        todo := todo - {q};
      }
      assert disk - todo == disk;
      if DiskSound(disk) {
        LoadedIsOk(messages, queues, disk);
        LoadedHasAll(messages, queues, disk);
      }
    }

    /** One file, message by message. */
    method LoadFile(q: string, ghost todo: set<string>) returns (t: Table, qs: map<string, seq<string>>)
      requires q in todo && q in disk && Valid()
      ensures Keyed(t) && Tables(t, qs) == ReadFile(Tables(messages, queues), disk[q])
      ensures DiskSound(disk) && Loaded(messages, queues, disk - todo) ==> Loaded(t, qs, disk - (todo - {q}))
    {
      t, qs := messages, queues;
      var file := disk[q];
      ghost var sound := DiskSound(disk) && Loaded(messages, queues, disk - todo);
      if sound {
        LoadedSame(t, qs, disk - todo, ReadSoFar(disk, todo, q, 0));
      }
      for k := 0 to |file|
        invariant Keyed(t) && Tables(t, qs) == ReadFile(Tables(messages, queues), file[..k])
        invariant sound ==> Loaded(t, qs, ReadSoFar(disk, todo, q, k))
      {
        var m := file[k];
        if sound {
          LoadOne(t, qs, disk, todo, q, k);
        }
        assert file[..k + 1][..k] == file[..k];
        t := t[m.id := m];
        if !m.acked {
          qs := qs[m.queue := QueueOf(qs, m.queue) + [m.id]];
        }
      }
      assert file[..|file|] == file;
      assert ReadSoFar(disk, todo, q, |file|) == disk - (todo - {q});
    }
  }

  predicate Keyed(t: Table) {
    forall id | id in t :: t[id].id == id
  }

  /** What the store keeps in memory. */
  datatype Tables = Tables(messages: Table, queues: map<string, seq<string>>)

  function ReadOne(tb: Tables, m: Msg): Tables {
    Tables(tb.messages[m.id := m],
           if m.acked then tb.queues else tb.queues[m.queue := QueueOf(tb.queues, m.queue) + [m.id]])
  }

  function ReadFile(tb: Tables, ms: seq<Msg>): Tables {
    if ms == [] then tb else ReadOne(ReadFile(tb, ms[..|ms| - 1]), ms[|ms| - 1])
  }

  function ReadFiles(disk: map<string, seq<Msg>>, order: seq<string>): Tables {
    if order == [] then Tables(map[], map[])
    else ReadFile(ReadFiles(disk, order[..|order| - 1]), FileOf(disk, order[|order| - 1]))
  }

  predicate Listed(order: seq<string>, names: set<string>) {
    Distinct(order) && Elements(order) == names
  }

  /** The order names every file once. */
  predicate ReadsAll(disk: map<string, seq<Msg>>, order: seq<string>) {
    Listed(order, disk.Keys)
  }

  lemma ListOne(order: seq<string>, names: set<string>, q: string)
    requires Listed(order, names) && q !in names
    ensures Listed(order + [q], names + {q})
  {
    assert forall k | 0 <= k < |order| :: order[k] in Elements(order);
  }

  function FirstIds(ids: seq<string>, limit: int): seq<string> {
    var n := if limit < 1 then 1 else limit;
    if n <= |ids| then ids[..n] else ids
  }

  lemma {:induction false} UnackedPrefix(t: Table, ids: seq<string>, k: nat)
    requires k <= |ids|
    ensures Unacked(t, ids[..k]) <= Unacked(t, ids)
  {
    if k < |ids| {
      UnackedPrefix(t, ids[..|ids| - 1], k);
      assert ids[..|ids| - 1][..k] == ids[..k];
    } else {
      assert ids[..k] == ids;
    }
  }

  /** The messages are what the table holds under their ids. */
  predicate InTable(t: Table, ms: seq<Msg>) {
    forall j | 0 <= j < |ms| :: ms[j].id in t && ms[j] == t[ms[j].id]
  }

  predicate Picked(t: Table, ids: seq<string>, k: nat, result: seq<Msg>) {
    k <= |ids| && IdsOf(result) == Unacked(t, ids[..k]) && InTable(t, result)
  }

  lemma PickOne(t: Table, ids: seq<string>, k: nat, result: seq<Msg>)
    requires Picked(t, ids, k, result) && k < |ids| && (ids[k] in t ==> t[ids[k]].id == ids[k])
    ensures if ids[k] in t && !t[ids[k]].acked then Picked(t, ids, k + 1, result + [t[ids[k]]])
            else Picked(t, ids, k + 1, result)
  {
    assert ids[..k + 1] == ids[..k] + [ids[k]];
    UnackedSnoc(t, ids[..k], ids[k]);
    if ids[k] in t {
      IdsSnoc(result, t[ids[k]]);
    }
  }

  function Tried(m: Msg, times: nat, now: real): Msg {
    if times == 0 then m else m.(attempts := m.attempts + times, lastAttempt := now)
  }

  /** The first `k` of the picked messages have been handed out. */
  ghost predicate HandedOut(t: Table, t': Table, picked: seq<Msg>, k: nat, now: real) {
    && k <= |picked| && InTable(t, picked) && t'.Keys == t.Keys
    && forall id | id in t :: t'[id] == Tried(t[id], multiset(IdsOf(picked[..k]))[id], now)
  }

  /** The messages as they are now. */
  function Current(t: Table, picked: seq<Msg>): (result: seq<Msg>)
    requires forall k | 0 <= k < |picked| :: picked[k].id in t
    ensures |result| == |picked|
  {
    seq(|picked|, k requires 0 <= k < |picked| => t[picked[k].id])
  }

  lemma AllHandedOut(t: Table, t': Table, picked: seq<Msg>, now: real)
    requires HandedOut(t, t', picked, |picked|, now)
    ensures forall k | 0 <= k < |picked| :: picked[k].id in t'
    ensures IdsOf(Current(t', picked)) == IdsOf(picked) && InTable(t', Current(t', picked))
    ensures forall id | id in t :: t'[id] == Tried(t[id], multiset(IdsOf(picked))[id], now) && SameMsg(t[id], t'[id])
  {
    assert picked[..|picked|] == picked;
  }

  lemma HandOne(t: Table, t': Table, picked: seq<Msg>, k: nat, now: real)
    requires HandedOut(t, t', picked, k, now) && k < |picked|
    ensures picked[k].id in t'
    ensures var m := t'[picked[k].id];
            HandedOut(t, t'[picked[k].id := m.(attempts := m.attempts + 1, lastAttempt := now)], picked, k + 1, now)
  {
    assert picked[..k + 1] == picked[..k] + [picked[k]];
    IdsSnoc(picked[..k], picked[k]);
  }

  /** Enough pending ids from the front of the queue are the first ones of the whole queue. */
  lemma EnoughPicked(t: Table, ids: seq<string>, k: nat, limit: int)
    requires k <= |ids| && |Unacked(t, ids[..k])| == if limit < 1 then 1 else limit
    ensures Unacked(t, ids[..k]) == FirstIds(Unacked(t, ids), limit)
  {
    UnackedPrefix(t, ids, k);
  }

  // ---------- reading files back ----------

  predicate FileSound(q: string, ms: seq<Msg>) {
    && (forall k | 0 <= k < |ms| :: ms[k].queue == q)
    && (forall i, j | 0 <= i < j < |ms| :: ms[i].id != ms[j].id)
  }

  predicate Apart(ms: seq<Msg>, ms': seq<Msg>) {
    forall i, j | 0 <= i < |ms| && 0 <= j < |ms'| :: ms[i].id != ms'[j].id
  }

  /** Every message is in its own queue's file, and no id is on disk twice. */
  ghost predicate DiskSound(disk: map<string, seq<Msg>>) {
    && (forall q {:trigger FileOf(disk, q)} :: FileSound(q, FileOf(disk, q)))
    && (forall q, q' {:trigger Apart(FileOf(disk, q), FileOf(disk, q'))} | q != q' ::
          Apart(FileOf(disk, q), FileOf(disk, q')))
  }

  lemma StoreIsSound(t: Table, queues: map<string, seq<string>>, disk: map<string, seq<Msg>>)
    requires StoreOk(t, queues, disk)
    ensures DiskSound(disk)
  {
    forall q
      ensures FileSound(q, FileOf(disk, q))
    {
      assert AtQueue(t, queues, disk, q);
    }
    forall q, q' | q != q'
      ensures Apart(FileOf(disk, q), FileOf(disk, q'))
    {
      assert AtQueue(t, queues, disk, q) && AtQueue(t, queues, disk, q');
    }
  }

  predicate RowRead(t: Table, files: map<string, seq<Msg>>, id: string) {
    id in t && t[id].id == id && t[id] in FileOf(files, t[id].queue)
  }

  predicate QueueRead(t: Table, queues: map<string, seq<string>>, files: map<string, seq<Msg>>, q: string) {
    && QueueOf(queues, q) == Kept(FileOf(files, q))
    && (forall k | 0 <= k < |FileOf(files, q)| ::
          FileOf(files, q)[k].id in t && t[FileOf(files, q)[k].id] == FileOf(files, q)[k])
  }

  /** The table and the queues are what reading these files gives. */
  ghost predicate Loaded(t: Table, queues: map<string, seq<string>>, files: map<string, seq<Msg>>) {
    && (forall id {:trigger RowRead(t, files, id)} | id in t :: RowRead(t, files, id))
    && (forall q {:trigger QueueRead(t, queues, files, q)} :: QueueRead(t, queues, files, q))
  }

  /** What has been read when `todo` is still to come and the file of `q` is open before message `k`. */
  function ReadSoFar(disk: map<string, seq<Msg>>, todo: set<string>, q: string, k: nat): map<string, seq<Msg>>
    requires q in disk && k <= |disk[q]|
  {
    (disk - todo)[q := disk[q][..k]]
  }

  lemma FreshId(t: Table, disk: map<string, seq<Msg>>, todo: set<string>, q: string, k: nat, id: string)
    requires DiskSound(disk) && q in disk && k < |disk[q]|
    requires id in t && RowRead(t, ReadSoFar(disk, todo, q, k), id)
    ensures id != disk[q][k].id
  {
    var x := t[id].queue;
    if x == q {
      assert FileSound(q, FileOf(disk, q));
    } else {
      assert Apart(FileOf(disk, x), FileOf(disk, q));
    }
  }

  lemma LoadOneQueue(t: Table, queues: map<string, seq<string>>, files: map<string, seq<Msg>>, m: Msg, q: string)
    requires QueueRead(t, queues, files, q) && m.id !in t
    ensures QueueRead(t[m.id := m], if m.acked then queues else queues[m.queue := QueueOf(queues, m.queue) + [m.id]],
                      files[m.queue := FileOf(files, m.queue) + [m]], q)
  {
    if q == m.queue {
      KeptSnoc(FileOf(files, q), m);
    }
  }

  lemma LoadOneRow(t: Table, files: map<string, seq<Msg>>, m: Msg, id: string)
    requires m.id !in t && (id == m.id || (id in t && RowRead(t, files, id)))
    ensures RowRead(t[m.id := m], files[m.queue := FileOf(files, m.queue) + [m]], id)
  {
  }

  lemma LoadFresh(t: Table, queues: map<string, seq<string>>, files: map<string, seq<Msg>>, m: Msg)
    requires Loaded(t, queues, files) && m.id !in t
    ensures Loaded(t[m.id := m], if m.acked then queues else queues[m.queue := QueueOf(queues, m.queue) + [m.id]],
                   files[m.queue := FileOf(files, m.queue) + [m]])
  {
    var t', files' := t[m.id := m], files[m.queue := FileOf(files, m.queue) + [m]];
    var queues' := if m.acked then queues else queues[m.queue := QueueOf(queues, m.queue) + [m.id]];
    forall id | id in t'
      ensures RowRead(t', files', id)
    {
      assert id in t ==> RowRead(t, files, id);
      LoadOneRow(t, files, m, id);
    }
    forall q
      ensures QueueRead(t', queues', files', q)
    {
      assert QueueRead(t, queues, files, q);
      LoadOneQueue(t, queues, files, m, q);
    }
  }

  lemma LoadOne(t: Table, queues: map<string, seq<string>>, disk: map<string, seq<Msg>>, todo: set<string>,
                q: string, k: nat)
    requires DiskSound(disk) && q in disk && k < |disk[q]| && Loaded(t, queues, ReadSoFar(disk, todo, q, k))
    ensures var m := disk[q][k];
            && m.queue == q
            && Loaded(t[m.id := m], if m.acked then queues else queues[q := QueueOf(queues, q) + [m.id]],
                      ReadSoFar(disk, todo, q, k + 1))
  {
    var m := disk[q][k];
    var files := ReadSoFar(disk, todo, q, k);
    assert FileSound(q, FileOf(disk, q));
    if m.id in t {
      assert RowRead(t, files, m.id);
      FreshId(t, disk, todo, q, k, m.id);
    }
    LoadFresh(t, queues, files, m);
    assert disk[q][..k + 1] == disk[q][..k] + [m];
    assert files[q := FileOf(files, q) + [m]] == ReadSoFar(disk, todo, q, k + 1);
  }

  lemma {:induction false} KeptMember(ms: seq<Msg>, id: string)
    ensures id in Kept(ms) <==> exists k :: 0 <= k < |ms| && ms[k].id == id && !ms[k].acked
  {
    if ms != [] {
      var init, m := ms[..|ms| - 1], ms[|ms| - 1];
      KeptMember(init, id);
      assert id in Kept(ms) <==> id in Kept(init) || (id == m.id && !m.acked);
      if id in Kept(init) {
        var k :| 0 <= k < |init| && init[k].id == id && !init[k].acked;
        assert ms[k].id == id;
      }
      if k :| 0 <= k < |ms| && ms[k].id == id && !ms[k].acked {
        assert k < |init| ==> init[k] == ms[k];
      }
    }
  }

  lemma {:induction false} KeptDistinct(ms: seq<Msg>)
    requires forall i, j | 0 <= i < j < |ms| :: ms[i].id != ms[j].id
    ensures Distinct(Kept(ms))
  {
    if ms != [] {
      var init, m := ms[..|ms| - 1], ms[|ms| - 1];
      KeptDistinct(init);
      forall i | 0 <= i < |Kept(init)|
        ensures Kept(init)[i] != m.id
      {
        KeptMember(init, Kept(init)[i]);
        assert Kept(init)[i] in Kept(init);
        var k :| 0 <= k < |init| && init[k].id == Kept(init)[i] && !init[k].acked;
        assert ms[k].id != ms[|ms| - 1].id;
      }
    }
  }

  lemma KeptFacts(ms: seq<Msg>)
    requires forall i, j | 0 <= i < j < |ms| :: ms[i].id != ms[j].id
    ensures Distinct(Kept(ms))
    ensures forall id :: id in Kept(ms) <==> exists k :: 0 <= k < |ms| && ms[k].id == id && !ms[k].acked
  {
    KeptDistinct(ms);
    forall id
      ensures id in Kept(ms) <==> exists k :: 0 <= k < |ms| && ms[k].id == id && !ms[k].acked
    {
      KeptMember(ms, id);
    }
  }

  lemma {:induction false} AllUnacked(t: Table, ids: seq<string>)
    requires forall k | 0 <= k < |ids| :: ids[k] in t && !t[ids[k]].acked
    ensures Unacked(t, ids) == ids
  {
    if ids != [] {
      var init, id := ids[..|ids| - 1], ids[|ids| - 1];
      assert id in t && !t[id].acked;
      AllUnacked(t, init);
      assert ids == init + [id];
    }
  }

  lemma LoadedSame(t: Table, queues: map<string, seq<string>>, files: map<string, seq<Msg>>,
                   disk: map<string, seq<Msg>>)
    requires Loaded(t, queues, files) && forall q {:trigger FileOf(files, q)} :: FileOf(files, q) == FileOf(disk, q)
    ensures Loaded(t, queues, disk)
  {
    forall id | id in t
      ensures RowRead(t, disk, id)
    {
      assert RowRead(t, files, id);
    }
    forall q
      ensures QueueRead(t, queues, disk, q)
    {
      assert QueueRead(t, queues, files, q);
    }
  }

  lemma LoadedQueue(t: Table, queues: map<string, seq<string>>, disk: map<string, seq<Msg>>, q: string)
    requires QueueRead(t, queues, disk, q) && FileSound(q, FileOf(disk, q))
    ensures AtQueue(t, queues, disk, q)
    ensures Unacked(t, QueueOf(queues, q)) == Kept(FileOf(disk, q))
  {
    var ms, ids := FileOf(disk, q), QueueOf(queues, q);
    KeptFacts(ms);
    forall k | 0 <= k < |ids|
      ensures ids[k] in t && !t[ids[k]].acked && t[ids[k]].queue == q
    {
      assert ids[k] in Kept(ms);
      var j :| 0 <= j < |ms| && ms[j].id == ids[k] && !ms[j].acked;
    }
    AllUnacked(t, ids);
  }

  lemma LoadedHasAll(t: Table, queues: map<string, seq<string>>, disk: map<string, seq<Msg>>)
    requires Loaded(t, queues, disk)
    ensures forall q, m | m in FileOf(disk, q) :: m.id in t && t[m.id] == m
  {
    forall q, m | m in FileOf(disk, q)
      ensures m.id in t && t[m.id] == m
    {
      assert QueueRead(t, queues, disk, q);
    }
  }

  lemma LoadedIsOk(t: Table, queues: map<string, seq<string>>, disk: map<string, seq<Msg>>)
    requires Loaded(t, queues, disk) && DiskSound(disk)
    ensures StoreOk(t, queues, disk)
    ensures forall q :: Unacked(t, QueueOf(queues, q)) == Kept(FileOf(disk, q))
    ensures forall id | id in t :: t[id].id == id && t[id] in FileOf(disk, t[id].queue)
  {
    forall q
      ensures AtQueue(t, queues, disk, q) && Unacked(t, QueueOf(queues, q)) == Kept(FileOf(disk, q))
    {
      assert QueueRead(t, queues, disk, q) && FileSound(q, FileOf(disk, q));
      LoadedQueue(t, queues, disk, q);
    }
    forall id | id in t
      ensures RowOk(t, queues, id) && t[id].id == id && t[id] in FileOf(disk, t[id].queue)
    {
      var q := t[id].queue;
      assert RowRead(t, disk, id) && QueueRead(t, queues, disk, q) && FileSound(q, FileOf(disk, q));
      KeptFacts(FileOf(disk, q));
    }
  }

  // ---------- whole runs ----------

  datatype Op = AddOp(m: Msg) | AckOp(id: string) | NackOp(id: string) | ConsumeOp(q: string, limit: int) | RestartOp

  /** What one operation does to one queue's pending ids. */
  function Effect(before: seq<string>, op: Op, q: string): seq<string> {
    match op
    case AddOp(m) => if m.queue == q then before + Open(m) else before
    case AckOp(id) => Without(before, id)
    case _ => before
  }

  function PendingAfter(ops: seq<Op>, q: string): seq<string> {
    if ops == [] then [] else Effect(PendingAfter(ops[..|ops| - 1], q), ops[|ops| - 1], q)
  }

  /** The ids ever added to a queue, in order; a message that comes acknowledged adds none. */
  function Added(ops: seq<Op>, q: string): seq<string> {
    if ops == [] then []
    else
      var before := Added(ops[..|ops| - 1], q);
      match ops[|ops| - 1]
      case AddOp(m) => if m.queue == q then before + Open(m) else before
      case _ => before
  }

  predicate Adds(op: Op, id: string) {
    op.AddOp? && op.m.id == id
  }

  /** Acknowledged after it was added; an acknowledgement that comes before does nothing. */
  predicate AckedSince(ops: seq<Op>, id: string) {
    exists i, j :: 0 <= i < j < |ops| && Adds(ops[i], id) && ops[j] == AckOp(id)
  }

  /** No id is added twice. */
  predicate FreshIds(ops: seq<Op>) {
    forall i, j | 0 <= i < j < |ops| && ops[i].AddOp? && ops[j].AddOp? :: ops[i].m.id != ops[j].m.id
  }

  function NotAcked(ops: seq<Op>, ids: seq<string>): seq<string> {
    if ids == [] then []
    else NotAcked(ops, ids[..|ids| - 1]) + (if AckedSince(ops, ids[|ids| - 1]) then [] else [ids[|ids| - 1]])
  }

  predicate WasAdded(ops: seq<Op>, id: string) {
    exists i :: 0 <= i < |ops| && Adds(ops[i], id)
  }

  lemma AckedStep(ops: seq<Op>, op: Op, id: string)
    requires WasAdded(ops, id)
    ensures AckedSince(ops + [op], id) <==> AckedSince(ops, id) || op == AckOp(id)
  {
    var ops' := ops + [op];
    assert ops'[|ops|] == op && forall k | 0 <= k < |ops| :: ops'[k] == ops[k];
    if AckedSince(ops, id) {
      var i, j :| 0 <= i < j < |ops| && Adds(ops[i], id) && ops[j] == AckOp(id);
      assert Adds(ops'[i], id) && ops'[j] == AckOp(id);
    }
    if op == AckOp(id) {
      var i :| 0 <= i < |ops| && Adds(ops[i], id);
      assert Adds(ops'[i], id) && ops'[|ops|] == AckOp(id);
    }
  }

  lemma {:induction false} NotAckedStep(ops: seq<Op>, op: Op, ids: seq<string>)
    requires forall k | 0 <= k < |ids| :: WasAdded(ops, ids[k])
    ensures NotAcked(ops + [op], ids)
            == if op.AckOp? then Without(NotAcked(ops, ids), op.id) else NotAcked(ops, ids)
  {
    if ids != [] {
      var init, last := ids[..|ids| - 1], ids[|ids| - 1];
      NotAckedStep(ops, op, init);
      AckedStep(ops, op, last);
      if op.AckOp? && !AckedSince(ops, last) {
        WithoutSnoc(NotAcked(ops, init), last, op.id);
      } else if AckedSince(ops, last) {
        assert NotAcked(ops, ids) == NotAcked(ops, init);
      }
    }
  }

  lemma {:induction false} AddedWereAdded(ops: seq<Op>, q: string, k: nat)
    requires k < |Added(ops, q)|
    ensures WasAdded(ops, Added(ops, q)[k])
  {
    var init, op := ops[..|ops| - 1], ops[|ops| - 1];
    if k < |Added(init, q)| {
      AddedWereAdded(init, q, k);
      var i :| 0 <= i < |init| && Adds(init[i], Added(init, q)[k]);
      assert Adds(ops[i], Added(ops, q)[k]);
    } else {
      assert Adds(ops[|ops| - 1], Added(ops, q)[k]);
    }
  }

  /** At-least-once: over every run with fresh ids, with crashes and restarts, a queue's pending ids
      are exactly the added ones not acknowledged since, in the order they were added. */
  lemma {:induction false} PendingIsAddedUnacked(ops: seq<Op>, q: string)
    requires FreshIds(ops)
    ensures PendingAfter(ops, q) == NotAcked(ops, Added(ops, q))
  {
    if ops != [] {
      var init, op := ops[..|ops| - 1], ops[|ops| - 1];
      var ids := Added(init, q);
      assert ops == init + [op];
      PendingIsAddedUnacked(init, q);
      forall k | 0 <= k < |ids|
        ensures WasAdded(init, ids[k])
      {
        AddedWereAdded(init, q, k);
      }
      NotAckedStep(init, op, ids);
      if op.AddOp? && op.m.queue == q {
        if op.m.acked {
          assert ids + [] == ids && PendingAfter(init, q) + [] == PendingAfter(init, q);
        } else {
          assert (ids + [op.m.id])[..|ids|] == ids;
          assert !AckedSince(ops, op.m.id);
        }
      }
    }
  }

  method Perform(store: MessageStore, op: Op, now: real)
    requires store.Valid() && store.Sound() && (op.AddOp? ==> op.m.id !in store.messages)
    modifies store
    ensures store.Valid() && store.Sound() && forall q :: store.Pending(q) == Effect(old(store.Pending(q)), op, q)
    ensures Carried(old(store.messages), op, store.messages)
  {
    match op
    case AddOp(m) => store.Add(m);
    case AckOp(id) => var _ := store.Ack(id);
    case NackOp(id) => store.Nack(id, now);
    case ConsumeOp(q, limit) => var _ := store.Consume(q, limit, now);
    case RestartOp => store.Restart();
  }

  predicate AddsBody(op: Op, m: Msg) {
    op.AddOp? && op.m.id == m.id && op.m.queue == m.queue && op.m.payload == m.payload
  }

  /** Messages keep what they were added with. */
  predicate Carried(t: Table, op: Op, t': Table) {
    forall id | id in t' ::
      || AddsBody(op, t'[id])
      || (id in t && t[id].id == t'[id].id && t[id].queue == t'[id].queue && t[id].payload == t'[id].payload)
  }

  ghost predicate AddedAs(ops: seq<Op>, m: Msg) {
    exists i :: 0 <= i < |ops| && AddsBody(ops[i], m)
  }

  /** The store knows only messages that were added, with the queue and the payload they were added with. */
  ghost predicate KnowsAdded(t: Table, ops: seq<Op>) {
    forall id | id in t :: t[id].id == id && AddedAs(ops, t[id])
  }

  lemma KnowsNext(t: Table, t': Table, ops: seq<Op>, op: Op)
    requires KnowsAdded(t, ops) && Carried(t, op, t') && Keyed(t')
    ensures KnowsAdded(t', ops + [op])
  {
    forall id | id in t'
      ensures AddedAs(ops + [op], t'[id])
    {
      if AddsBody(op, t'[id]) {
        assert AddsBody((ops + [op])[|ops|], t'[id]);
      } else {
        var i :| 0 <= i < |ops| && AddsBody(ops[i], t[id]);
        assert AddsBody((ops + [op])[i], t'[id]);
      }
    }
  }

  lemma StillFresh(t: Table, ops: seq<Op>, k: nat)
    requires FreshIds(ops) && k < |ops| && KnowsAdded(t, ops[..k]) && ops[k].AddOp?
    ensures ops[k].m.id !in t
  {
    forall i | 0 <= i < k
      ensures ops[..k][i] == ops[i] && !Adds(ops[i], ops[k].m.id)
    {
    }
  }

  method PerformNext(store: MessageStore, ops: seq<Op>, k: nat, now: real)
    requires FreshIds(ops) && k < |ops|
    requires store.Valid() && store.Sound() && KnowsAdded(store.messages, ops[..k])
    requires forall q :: store.Pending(q) == PendingAfter(ops[..k], q)
    modifies store
    ensures store.Valid() && store.Sound() && KnowsAdded(store.messages, ops[..k + 1])
    ensures forall q :: store.Pending(q) == PendingAfter(ops[..k + 1], q)
  {
    ghost var t := store.messages;
    assert ops[..k + 1] == ops[..k] + [ops[k]] && ops[..k + 1][..k] == ops[..k];
    if ops[k].AddOp? {
      StillFresh(t, ops, k);
    }
    Perform(store, ops[k], now);
    KnowsNext(t, store.messages, ops[..k], ops[k]);
  }

  /** Any run of the store itself, started over an empty directory: freshness is all it asks for, and
      the pending ids of every queue come out as above, each with the payload it was added with. */
  method RunStore(ops: seq<Op>, now: real) returns (store: MessageStore)
    requires FreshIds(ops)
    ensures fresh(store) && store.Valid() && store.Sound()
    ensures forall q :: store.Pending(q) == NotAcked(ops, Added(ops, q))
    ensures forall q, id | id in store.Pending(q) ::
              id in store.messages && store.messages[id].id == id && AddedAs(ops, store.messages[id])
  {
    store := new MessageStore(map[]);
    for k := 0 to |ops|
      invariant fresh(store) && store.Valid() && store.Sound() && KnowsAdded(store.messages, ops[..k])
      invariant forall q :: store.Pending(q) == PendingAfter(ops[..k], q)
    {
      PerformNext(store, ops, k, now);
    }
    assert ops[..|ops|] == ops;
    forall q
      ensures store.Pending(q) == NotAcked(ops, Added(ops, q))
    {
      PendingIsAddedUnacked(ops, q);
    }
    forall q, id | id in store.Pending(q)
      ensures id in store.messages
    {
      UnackedSubset(store.messages, QueueOf(store.queues, q), id);
    }
  }

  /** Saving any queue of a sound store changes nothing that counts. */
  lemma SaveKeeps(t: Table, queues: map<string, seq<string>>, disk: map<string, seq<Msg>>, q: string)
    requires StoreOk(t, queues, disk)
    ensures StoreOk(t, queues[q := QueueOf(queues, q)], disk[q := Saved(t, QueueOf(queues, q))])
  {
    var queues', disk' := queues[q := QueueOf(queues, q)], disk[q := Saved(t, QueueOf(queues, q))];
    forall x
      ensures AtQueue(t, queues', disk', x)
    {
      assert AtQueue(t, queues, disk, x);
      if x == q {
        QueueIds(t, queues, disk, q);
        SavedQueue(t, q, QueueOf(queues, q));
      }
    }
    forall id | id in t
      ensures RowOk(t, queues', id)
    {
      assert RowOk(t, queues, id);
    }
  }

  lemma QueueIds(t: Table, queues: map<string, seq<string>>, disk: map<string, seq<Msg>>, q: string)
    requires StoreOk(t, queues, disk)
    ensures QueueOk(t, q, QueueOf(queues, q))
    ensures forall k | 0 <= k < |QueueOf(queues, q)| :: t[QueueOf(queues, q)[k]].id == QueueOf(queues, q)[k]
  {
    assert AtQueue(t, queues, disk, q);
    forall k | 0 <= k < |QueueOf(queues, q)|
      ensures t[QueueOf(queues, q)[k]].id == QueueOf(queues, q)[k]
    {
      assert RowOk(t, queues, QueueOf(queues, q)[k]);
    }
  }

  lemma TouchKeeps(t: Table, t': Table, queues: map<string, seq<string>>, disk: map<string, seq<Msg>>)
    requires StoreOk(t, queues, disk) && t'.Keys == t.Keys
    requires forall id | id in t :: SameMsg(t[id], t'[id])
    ensures StoreOk(t', queues, disk)
  {
    forall q
      ensures AtQueue(t', queues, disk, q)
    {
      assert AtQueue(t, queues, disk, q);
      UntouchedQueue(t, t', queues, queues, disk, disk, q);
    }
    forall id | id in t'
      ensures RowOk(t', queues, id)
    {
      assert RowOk(t, queues, id);
    }
  }

  lemma AddOwnQueue(t: Table, ids: seq<string>, m: Msg)
    requires QueueOk(t, m.queue, ids) && (forall k | 0 <= k < |ids| :: t[ids[k]].id == ids[k])
    requires m.id !in t
    ensures var t', ids' := t[m.id := m], ids + [m.id];
            && QueueOk(t', m.queue, ids') && FileOk(t', m.queue, ids', Saved(t', ids'))
            && Unacked(t', ids') == Unacked(t, ids) + Open(m)
  {
    var t' := t[m.id := m];
    SavedQueue(t', m.queue, ids + [m.id]);
    UnackedSnoc(t', ids, m.id);
    UnackedSame(t, t', ids);
  }

  lemma AddAtQueue(t: Table, queues: map<string, seq<string>>, disk: map<string, seq<Msg>>, m: Msg,
                   t': Table, queues': map<string, seq<string>>, disk': map<string, seq<Msg>>, q: string)
    requires StoreOk(t, queues, disk) && m.id !in t && t' == t[m.id := m]
    requires queues' == queues[m.queue := QueueOf(queues, m.queue) + [m.id]]
    requires disk' == disk[m.queue := Saved(t', queues'[m.queue])]
    ensures AtQueue(t', queues', disk', q)
    ensures Unacked(t', QueueOf(queues', q))
            == if q == m.queue then Unacked(t, QueueOf(queues, q)) + Open(m) else Unacked(t, QueueOf(queues, q))
  {
    if q == m.queue {
      QueueIds(t, queues, disk, q);
      AddOwnQueue(t, QueueOf(queues, q), m);
    } else {
      assert AtQueue(t, queues, disk, q);
      UntouchedQueue(t, t', queues, queues', disk, disk', q);
    }
  }

  lemma AddRow(t: Table, queues: map<string, seq<string>>, m: Msg, id: string)
    requires id in t[m.id := m] && (id != m.id ==> RowOk(t, queues, id))
    ensures RowOk(t[m.id := m], queues[m.queue := QueueOf(queues, m.queue) + [m.id]], id)
  {
    assert m.id in QueueOf(queues, m.queue) + [m.id];
  }

  lemma AddKeeps(t: Table, queues: map<string, seq<string>>, disk: map<string, seq<Msg>>, m: Msg,
                 t': Table, queues': map<string, seq<string>>, disk': map<string, seq<Msg>>)
    requires StoreOk(t, queues, disk) && m.id !in t && t' == t[m.id := m]
    requires queues' == queues[m.queue := QueueOf(queues, m.queue) + [m.id]]
    requires disk' == disk[m.queue := Saved(t', queues'[m.queue])]
    ensures StoreOk(t', queues', disk')
    ensures forall q ::
              Unacked(t', QueueOf(queues', q))
              == if q == m.queue then Unacked(t, QueueOf(queues, q)) + Open(m) else Unacked(t, QueueOf(queues, q))
  {
    forall q
      ensures AtQueue(t', queues', disk', q)
      ensures Unacked(t', QueueOf(queues', q))
              == if q == m.queue then Unacked(t, QueueOf(queues, q)) + Open(m) else Unacked(t, QueueOf(queues, q))
    {
      AddAtQueue(t, queues, disk, m, t', queues', disk', q);
    }
    forall id | id in t'
      ensures RowOk(t', queues', id)
    {
      assert id in t ==> RowOk(t, queues, id);
      AddRow(t, queues, m, id);
    }
  }

  lemma AckOwnQueue(t: Table, q: string, ids: seq<string>, id: string)
    requires QueueOk(t, q, ids) && (forall k | 0 <= k < |ids| :: t[ids[k]].id == ids[k])
    requires id in t && t[id].queue == q && t[id].id == id
    ensures var t' := t[id := t[id].(acked := true)];
            QueueOk(t', q, ids) && FileOk(t', q, ids, Saved(t', ids))
  {
    SavedQueue(t[id := t[id].(acked := true)], q, ids);
  }

  lemma AckAtQueue(t: Table, queues: map<string, seq<string>>, disk: map<string, seq<Msg>>, id: string,
                   t': Table, queues': map<string, seq<string>>, disk': map<string, seq<Msg>>, q: string)
    requires StoreOk(t, queues, disk) && id in t && t' == t[id := t[id].(acked := true)]
    requires queues' == queues[t[id].queue := QueueOf(queues, t[id].queue)]
    requires disk' == disk[t[id].queue := Saved(t', QueueOf(queues, t[id].queue))]
    ensures AtQueue(t', queues', disk', q)
  {
    if q == t[id].queue {
      QueueIds(t, queues, disk, q);
      assert RowOk(t, queues, id);
      AckOwnQueue(t, q, QueueOf(queues, q), id);
    } else {
      assert AtQueue(t, queues, disk, q);
      UntouchedQueue(t, t', queues, queues', disk, disk', q);
    }
  }

  lemma AckKeeps(t: Table, queues: map<string, seq<string>>, disk: map<string, seq<Msg>>, id: string,
                 t': Table, queues': map<string, seq<string>>, disk': map<string, seq<Msg>>)
    requires StoreOk(t, queues, disk) && id in t && t' == t[id := t[id].(acked := true)]
    requires queues' == queues[t[id].queue := QueueOf(queues, t[id].queue)]
    requires disk' == disk[t[id].queue := Saved(t', QueueOf(queues, t[id].queue))]
    ensures StoreOk(t', queues', disk')
  {
    forall q
      ensures AtQueue(t', queues', disk', q)
    {
      AckAtQueue(t, queues, disk, id, t', queues', disk', q);
    }
    forall x | x in t'
      ensures RowOk(t', queues', x)
    {
      assert RowOk(t, queues, x);
    }
  }

  lemma AbsentAck(t: Table, queues: map<string, seq<string>>, id: string)
    requires id !in t
    ensures forall q :: Without(Unacked(t, QueueOf(queues, q)), id) == Unacked(t, QueueOf(queues, q))
  {
    forall q
      ensures Without(Unacked(t, QueueOf(queues, q)), id) == Unacked(t, QueueOf(queues, q))
    {
      UnackedSubset(t, QueueOf(queues, q), id);
      WithoutAbsent(Unacked(t, QueueOf(queues, q)), id);
    }
  }

  lemma AckPending(t: Table, queues: map<string, seq<string>>, id: string)
    requires id in t
    ensures forall q ::
              Unacked(t[id := t[id].(acked := true)], QueueOf(queues, q)) == Without(Unacked(t, QueueOf(queues, q)), id)
  {
    forall q
      ensures Unacked(t[id := t[id].(acked := true)], QueueOf(queues, q))
              == Without(Unacked(t, QueueOf(queues, q)), id)
    {
      UnackedAck(t, QueueOf(queues, q), id);
    }
  }

  /** What is pending depends on the table only through what is acknowledged. */
  lemma TouchPending(t: Table, t': Table, queues: map<string, seq<string>>)
    requires t'.Keys == t.Keys && forall id | id in t :: t'[id].acked == t[id].acked
    ensures forall q :: Unacked(t', QueueOf(queues, q)) == Unacked(t, QueueOf(queues, q))
  {
    forall q
      ensures Unacked(t', QueueOf(queues, q)) == Unacked(t, QueueOf(queues, q))
    {
      UnackedSame(t, t', QueueOf(queues, q));
    }
  }

  /** What the files of a sound store give back is what was pending. */
  lemma RestartKeeps(t: Table, queues: map<string, seq<string>>, disk: map<string, seq<Msg>>,
                     t': Table, queues': map<string, seq<string>>)
    requires StoreOk(t, queues, disk)
    requires forall q :: Unacked(t', QueueOf(queues', q)) == Kept(FileOf(disk, q))
    requires forall id | id in t' :: t'[id].id == id && t'[id] in FileOf(disk, t'[id].queue)
    ensures forall id | id in t' :: id in t && SameMsg(t[id], t'[id])
    ensures forall q :: Unacked(t', QueueOf(queues', q)) == Unacked(t, QueueOf(queues, q))
  {
    forall q
      ensures Unacked(t', QueueOf(queues', q)) == Unacked(t, QueueOf(queues, q))
    {
      assert AtQueue(t, queues, disk, q);
    }
    forall id | id in t'
      ensures id in t && SameMsg(t[id], t'[id])
    {
      assert AtQueue(t, queues, disk, t'[id].queue);
    }
  }
}
