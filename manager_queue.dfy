/**
 * The inbound bookkeeping of `Manager`: one envelope decrypted, handled and
 * handed to the client's handler, the walk over the legacy file cache and
 * the drain of the message queue table (`retryFailedReceivedMessages`), and
 * the store-before-handling, delete-after-handling discipline of
 * `receiveMessages`.
 */
module ManagerQueue {
  import opened Wrappers
  import opened JavaTypes
  import opened SignalTypes
  import opened Account
  import opened ManagerSend
  import opened ManagerReceive
  import opened ManagerTrust
  import EnvelopeCodec

  // ---------------------------------------------------------------------------
  // One envelope

  /** The call `handler.handleMessage(envelope, content, exception)`. */
  datatype Delivery = Delivery(envelope: Envelope, content: Option<Content>, exception: Option<DecryptFailure>)

  /** The collaborators of the inbound path: own profile key, transport, `TrustLevel.fromVerifiedState`, the cipher. */
  datatype Collaborators = Collaborators(
    ownProfileKey: Option<Bytes>,
    transport: Transport,
    trustOf: VerifiedState -> TrustLevel,
    decrypt: Envelope -> Decryption)

  function InboundOf(self: Address, co: Collaborators): Inbound
  {
    Inbound(self, co.ownProfileKey, co.transport)
  }

  /**
   * One envelope: a receipt is handed over as it is; otherwise it is
   * decrypted, a decryption failure is handed over as the exception, and
   * decrypted content is handled first. An error of the handling aborts
   * before the handler sees the envelope.
   */
  function ProcessSpec(self: Address, co: Collaborators, st: AccountState, envelope: Envelope)
    : (Result<Delivery, HandleError>, AccountState)
  {
    if envelope.IsReceipt() then (Ok(Delivery(envelope, None, None)), st)
    else
      var (d, decrypted) := DecryptSpec(st, co.decrypt(envelope));
      if d.Err? then (Ok(Delivery(envelope, None, Some(d.error))), decrypted)
      else
        var (h, handled) := HandleMessageSpec(InboundOf(self, co), co.trustOf, decrypted, envelope, d.value);
        if h.Err? then (Err(h.error), handled) else (Ok(Delivery(envelope, d.value, None)), handled)
  }

  /**
   * A receipt is never decrypted and changes nothing; the handler sees
   * the envelope itself, the content only when it was decrypted, and an
   * exception exactly when decryption failed; only decrypted content can
   * make the handling fail.
   */
  lemma ProcessOutcomes(self: Address, co: Collaborators, st: AccountState, envelope: Envelope)
    ensures var (r, after) := ProcessSpec(self, co, st, envelope);
      && (envelope.IsReceipt() ==> r == Ok(Delivery(envelope, None, None)) && after == st)
      && (r.Ok? ==> r.value.envelope == envelope)
      && (r.Ok? ==> (r.value.exception.Some? <==> !envelope.IsReceipt() && !co.decrypt(envelope).Decrypted?))
      && (r.Ok? && r.value.content.Some? ==> co.decrypt(envelope) == Decrypted(r.value.content))
      && (r.Err? ==> !envelope.IsReceipt() && co.decrypt(envelope).Decrypted?)
  {
  }

  /** Decrypt, handle, and build the handler's arguments for one envelope. */
  method Process(account: AccountData, co: Collaborators, envelope: Envelope) returns (r: Result<Delivery, HandleError>)
    requires account.Valid()
    modifies account, account.groupStore
    ensures account.Valid()
    ensures (r, account.State()) == ProcessSpec(account.address, co, old(account.State()), envelope)
  {
    if envelope.IsReceipt() {
      return Ok(Delivery(envelope, None, None));
    }
    var d := DecryptMessage(account, envelope, co.decrypt);
    if d.Err? {
      return Ok(Delivery(envelope, None, Some(d.error)));
    }
    var h := HandleMessage(account, co.trustOf, envelope, d.value, co.ownProfileKey, co.transport);
    if h.Err? {
      return Err(h.error);
    }
    r := Ok(Delivery(envelope, d.value, None));
  }

  /** A delivery put in front of the deliveries that follow, unless those ended in an error. */
  function Prepend(d: Delivery, r: Result<seq<Delivery>, HandleError>): Result<seq<Delivery>, HandleError>
  {
    if r.Ok? then Ok([d] + r.value) else r
  }

  /** Deliveries already made, followed by the outcome of the rest. */
  function After(delivered: seq<Delivery>, r: Result<seq<Delivery>, HandleError>): Result<seq<Delivery>, HandleError>
  {
    if r.Ok? then Ok(delivered + r.value) else r
  }

  lemma AfterNothing(r: Result<seq<Delivery>, HandleError>)
    ensures After([], r) == r
  {
    if r.Ok? {
      assert [] + r.value == r.value;
    }
  }

  lemma AfterEnd(delivered: seq<Delivery>)
    ensures After(delivered, Ok([])) == Ok(delivered)
  {
    assert delivered + [] == delivered;
  }

  lemma AfterPrepend(delivered: seq<Delivery>, d: Delivery, r: Result<seq<Delivery>, HandleError>)
    ensures After(delivered, Prepend(d, r)) == After(delivered + [d], r)
  {
    if r.Ok? {
      assert delivered + ([d] + r.value) == (delivered + [d]) + r.value;
    }
  }

  // ---------------------------------------------------------------------------
  // The legacy file cache

  /**
   * The walk over the cached envelope files: an unreadable file is
   * deleted and skipped, a file of an unknown version is skipped and kept,
   * a read envelope is processed and its file deleted. An error of the
   * handling ends the walk and keeps its file and every later one. The
   * last component is the files left in the cache.
   */
  function CacheWalk(self: Address, co: Collaborators, st: AccountState, files: seq<Bytes>)
    : (Result<seq<Delivery>, HandleError>, AccountState, seq<Bytes>)
    decreases |files|
  {
    if files == [] then (Ok([]), st, [])
    else
      match EnvelopeCodec.Load(files[0])
      case Err(_) => CacheWalk(self, co, st, files[1..])
      case Ok(None) =>
        var w := CacheWalk(self, co, st, files[1..]);
        (w.0, w.1, [files[0]] + w.2)
      case Ok(Some(envelope)) =>
        var (p, processed) := ProcessSpec(self, co, st, envelope);
        if p.Err? then (Err(p.error), processed, files)
        else
          var w := CacheWalk(self, co, processed, files[1..]);
          (Prepend(p.value, w.0), w.1, w.2)
  }

  /**
   * A walk that completes leaves exactly the files of an unknown version:
   * an unreadable file is gone, a file of a later version stays.
   */
  lemma {:induction false} CacheWalkKeepsLaterVersions(self: Address, co: Collaborators, st: AccountState, files: seq<Bytes>)
    ensures var (r, _, kept) := CacheWalk(self, co, st, files);
      r.Ok? ==>
        && (forall f :: f in kept ==> EnvelopeCodec.Load(f) == Ok(None))
        && (forall f :: f in files && EnvelopeCodec.Load(f) == Ok(None) ==> f in kept)
    decreases |files|
  {
    if files != [] {
      match EnvelopeCodec.Load(files[0])
      case Err(_) =>
        CacheWalkKeepsLaterVersions(self, co, st, files[1..]);
      case Ok(None) =>
        CacheWalkKeepsLaterVersions(self, co, st, files[1..]);
      case Ok(Some(envelope)) =>
        var (p, processed) := ProcessSpec(self, co, st, envelope);
        if p.Ok? {
          CacheWalkKeepsLaterVersions(self, co, processed, files[1..]);
        }
    }
  }

  /** A cache file that loads to an envelope. */
  predicate HoldsEnvelope(f: Bytes)
  {
    EnvelopeCodec.Load(f).Ok? && EnvelopeCodec.Load(f).value.Some?
  }

  /**
   * A walk that fails keeps the file of the envelope whose handling failed
   * and every file after it.
   */
  lemma {:induction false} CacheWalkErrorKeepsRest(self: Address, co: Collaborators, st: AccountState, files: seq<Bytes>)
    ensures var (r, _, kept) := CacheWalk(self, co, st, files);
      r.Err? ==> exists k :: 0 <= k < |files| && HoldsEnvelope(files[k]) && forall j :: k <= j < |files| ==> files[j] in kept
    decreases |files|
  {
    if files != [] {
      var w := CacheWalk(self, co, st, files);
      var rest := files[1..];
      match EnvelopeCodec.Load(files[0])
      case Err(_) =>
        CacheWalkErrorKeepsRest(self, co, st, rest);
        if w.0.Err? {
          KeptSuffixShifts(files, w.2, w.2);
        }
      case Ok(None) =>
        CacheWalkErrorKeepsRest(self, co, st, rest);
        if w.0.Err? {
          KeptSuffixShifts(files, CacheWalk(self, co, st, rest).2, w.2);
        }
      case Ok(Some(envelope)) =>
        var (p, processed) := ProcessSpec(self, co, st, envelope);
        if p.Ok? {
          CacheWalkErrorKeepsRest(self, co, processed, rest);
          if w.0.Err? {
            KeptSuffixShifts(files, w.2, w.2);
          }
        } else {
          assert HoldsEnvelope(files[0]);
          assert forall j :: 0 <= j < |files| ==> files[j] in w.2;
        }
    }
  }

  /** A kept suffix of the files after the first, with an envelope at its head, is a kept suffix of all the files. */
  lemma KeptSuffixShifts(files: seq<Bytes>, kept: seq<Bytes>, kept': seq<Bytes>)
    requires files != []
    requires exists k :: 0 <= k < |files[1..]| && HoldsEnvelope(files[1..][k])
                         && forall j :: k <= j < |files[1..]| ==> files[1..][j] in kept
    requires forall f :: f in kept ==> f in kept'
    ensures exists k :: 0 <= k < |files| && HoldsEnvelope(files[k]) && forall j :: k <= j < |files| ==> files[j] in kept'
  {
    var rest := files[1..];
    var k :| 0 <= k < |rest| && HoldsEnvelope(rest[k]) && forall j :: k <= j < |rest| ==> rest[j] in kept;
    assert rest[k] == files[k + 1];
    forall j | k + 1 <= j < |files| ensures files[j] in kept' {
      assert files[j] == rest[j - 1];
    }
  }

  /**
   * The walk over the cache directory; `Files.delete` is the file not
   * being added to `kept`, the files the cache still holds afterwards.
   */
  method WalkCache(account: AccountData, co: Collaborators, files: seq<Bytes>)
    returns (r: Result<seq<Delivery>, HandleError>, kept: seq<Bytes>)
    requires account.Valid()
    modifies account, account.groupStore
    ensures account.Valid()
    ensures (r, account.State(), kept) == CacheWalk(account.address, co, old(account.State()), files)
  {
    ghost var total := CacheWalk(account.address, co, account.State(), files);
    var delivered: seq<Delivery> := [];
    kept := [];
    var i := 0;
    assert files[0..] == files && [] + total.2 == total.2;
    AfterNothing(total.0);
    while i < |files|
      invariant 0 <= i <= |files| && account.Valid()
      invariant var w := CacheWalk(account.address, co, account.State(), files[i..]);
        total == (After(delivered, w.0), w.1, kept + w.2)
    {
      assert files[i..][1..] == files[i + 1..];
      var loaded := EnvelopeCodec.LoadEnvelope(files[i]);
      if loaded.Err? {
        i := i + 1;
      } else if loaded.value.None? {
        ghost var w := CacheWalk(account.address, co, account.State(), files[i + 1..]);
        assert kept + ([files[i]] + w.2) == (kept + [files[i]]) + w.2;
        kept := kept + [files[i]];
        i := i + 1;
      } else {
        var p := Process(account, co, loaded.value.value);
        if p.Err? {
          return Err(p.error), kept + files[i..];
        }
        AfterPrepend(delivered, p.value, CacheWalk(account.address, co, account.State(), files[i + 1..]).0);
        delivered := delivered + [p.value];
        i := i + 1;
      }
    }
    assert kept + [] == kept;
    AfterEnd(delivered);
    r := Ok(delivered);
  }

  // ---------------------------------------------------------------------------
  // The message queue table

  /** A queued envelope and its row id. */
  datatype StoredEnvelope = StoredEnvelope(databaseId: int, envelope: Envelope)

  /** The table's rows, oldest first, and the id the next row gets. */
  datatype Queue = Queue(rows: seq<StoredEnvelope>, nextId: int)
  {
    /** Row ids increase with age and stay below the next id. */
    ghost predicate Valid()
    {
      && (forall i :: 0 <= i < |rows| ==> rows[i].databaseId < nextId)
      && (forall i, j :: 0 <= i < j < |rows| ==> rows[i].databaseId < rows[j].databaseId)
    }
  }

  /** The rows left after deleting the row(s) with an id. */
  function Without(rows: seq<StoredEnvelope>, id: int): (left: seq<StoredEnvelope>)
    ensures forall x :: x in left <==> x in rows && x.databaseId != id
    decreases |rows|
  {
    if rows == [] then []
    else (if rows[0].databaseId == id then [] else [rows[0]]) + Without(rows[1..], id)
  }

  lemma {:induction false} WithoutAbsent(rows: seq<StoredEnvelope>, id: int)
    requires forall i :: 0 <= i < |rows| ==> rows[i].databaseId != id
    ensures Without(rows, id) == rows
    decreases |rows|
  {
    if rows != [] {
      WithoutAbsent(rows[1..], id);
    }
  }

  /** Deleting the oldest row of a valid queue leaves the rest in order. */
  lemma WithoutOldest(q: Queue)
    requires q.Valid() && q.rows != []
    ensures Without(q.rows, q.rows[0].databaseId) == q.rows[1..]
  {
    var rest := q.rows[1..];
    forall i | 0 <= i < |rest|
      ensures rest[i].databaseId != q.rows[0].databaseId
    {
      assert rest[i] == q.rows[i + 1];
    }
    WithoutAbsent(rest, q.rows[0].databaseId);
  }

  /** Deleting the row just stored leaves the queue as it was before. */
  lemma {:induction false} WithoutNewest(rows: seq<StoredEnvelope>, row: StoredEnvelope)
    requires forall i :: 0 <= i < |rows| ==> rows[i].databaseId < row.databaseId
    ensures Without(rows + [row], row.databaseId) == rows
    decreases |rows|
  {
    if rows == [] {
      assert [] + [row] == [row];
    } else {
      assert (rows + [row])[1..] == rows[1..] + [row];
      WithoutNewest(rows[1..], row);
    }
  }

  /** The queue after storing an envelope under the next id. */
  function Stored(q: Queue, envelope: Envelope): (after: Queue)
    ensures q.Valid() ==> after.Valid()
  {
    Queue(q.rows + [StoredEnvelope(q.nextId, envelope)], q.nextId + 1)
  }

  /** `MessageQueueTable`: the queue of envelopes not yet handled, kept in a database table. */
  class MessageQueueTable {
    var rows: seq<StoredEnvelope>
    var nextId: int

    function Value(): Queue
      reads this
    {
      Queue(rows, nextId)
    }

    constructor()
      ensures Value() == Queue([], 0)
    {
      rows, nextId := [], 0;
    }

    /** `storeEnvelope`: a new row under a fresh id, returned. */
    method StoreEnvelope(envelope: Envelope) returns (id: int)
      modifies this
      ensures id == old(nextId) && Value() == Stored(old(Value()), envelope)
    {
      id := nextId;
      rows := rows + [StoredEnvelope(id, envelope)];
      nextId := nextId + 1;
    }

    /** `nextEnvelope`: the oldest row, or none when the table is empty. */
    method NextEnvelope() returns (r: Option<StoredEnvelope>)
      ensures r.None? <==> rows == []
      ensures r.Some? ==> r.value == rows[0]
    {
      if rows == [] {
        return None;
      }
      return Some(rows[0]);
    }

    /** `deleteEnvelope`: the row with the id is gone. */
    method DeleteEnvelope(id: int)
      modifies this
      ensures Value() == old(Value()).(rows := Without(old(rows), id))
    {
      rows := Without(rows, id);
    }
  }

  /**
   * The drain of the queue table: each row, oldest first, is processed,
   * handed to the handler and deleted; the row is deleted even when its
   * handling fails, and that error ends the drain. The last component is
   * the rows left.
   */
  function Drain(self: Address, co: Collaborators, st: AccountState, rows: seq<StoredEnvelope>)
    : (Result<seq<Delivery>, HandleError>, AccountState, seq<StoredEnvelope>)
    decreases |rows|
  {
    if rows == [] then (Ok([]), st, [])
    else
      var (p, processed) := ProcessSpec(self, co, st, rows[0].envelope);
      if p.Err? then (Err(p.error), processed, rows[1..])
      else
        var d := Drain(self, co, processed, rows[1..]);
        (Prepend(p.value, d.0), d.1, d.2)
  }

  /**
   * A drain that completes empties the queue and hands over one delivery
   * per row, in row order; a drain that fails has deleted every row up to
   * and including the failing one, and no later row.
   */
  lemma {:induction false} DrainOutcome(self: Address, co: Collaborators, st: AccountState, rows: seq<StoredEnvelope>)
    ensures var (r, _, left) := Drain(self, co, st, rows);
      && (r.Ok? ==> left == [] && |r.value| == |rows| && forall i :: 0 <= i < |rows| ==> r.value[i].envelope == rows[i].envelope)
      && (r.Err? ==> |left| < |rows| && left == rows[|rows| - |left|..])
    decreases |rows|
  {
    if rows != [] {
      var (p, processed) := ProcessSpec(self, co, st, rows[0].envelope);
      ProcessOutcomes(self, co, st, rows[0].envelope);
      if p.Ok? {
        DrainOutcome(self, co, processed, rows[1..]);
        var d := Drain(self, co, processed, rows[1..]);
        if d.0.Ok? {
          forall i | 0 <= i < |rows|
            ensures ([p.value] + d.0.value)[i].envelope == rows[i].envelope
          {
            if i > 0 {
              assert ([p.value] + d.0.value)[i] == d.0.value[i - 1];
              assert rows[1..][i - 1] == rows[i];
            }
          }
        } else {
          assert rows[1..][|rows[1..]| - |d.2|..] == rows[|rows| - |d.2|..];
        }
      }
    }
  }

  /** The drain loop of `retryFailedReceivedMessages`; the delete sits in `finally`. */
  method DrainQueue(account: AccountData, queue: MessageQueueTable, co: Collaborators)
    returns (r: Result<seq<Delivery>, HandleError>)
    requires account.Valid() && queue.Value().Valid()
    modifies account, account.groupStore, queue
    ensures account.Valid() && queue.Value().Valid()
    ensures (r, account.State(), queue.rows) == Drain(account.address, co, old(account.State()), old(queue.rows))
    ensures queue.nextId == old(queue.nextId)
  {
    ghost var total := Drain(account.address, co, account.State(), queue.rows);
    var delivered: seq<Delivery> := [];
    AfterNothing(total.0);
    while true
      invariant account.Valid() && queue.Value().Valid() && queue.nextId == old(queue.nextId)
      invariant var d := Drain(account.address, co, account.State(), queue.rows);
        total == (After(delivered, d.0), d.1, d.2)
      decreases |queue.rows|
    {
      var next := queue.NextEnvelope();
      if next.None? {
        break;
      }
      var p := Process(account, co, next.value.envelope);
      WithoutOldest(queue.Value());
      queue.DeleteEnvelope(next.value.databaseId);
      if p.Err? {
        return Err(p.error);
      }
      AfterPrepend(delivered, p.value, Drain(account.address, co, account.State(), queue.rows).0);
      delivered := delivered + [p.value];
    }
    AfterEnd(delivered);
    r := Ok(delivered);
  }

  /**
   * `retryFailedReceivedMessages`: nothing at all when the cache directory
   * does not exist, otherwise the file cache, then the queue table.
   */
  function RetrySpec(self: Address, co: Collaborators, st: AccountState, cacheExists: bool, files: seq<Bytes>,
                     rows: seq<StoredEnvelope>)
    : (Result<seq<Delivery>, HandleError>, AccountState, seq<Bytes>, seq<StoredEnvelope>)
  {
    if !cacheExists then (Ok([]), st, files, rows)
    else
    var (w, walked, kept) := CacheWalk(self, co, st, files);
    if w.Err? then (w, walked, kept, rows)
    else
      var d := Drain(self, co, walked, rows);
      (After(w.value, d.0), d.1, kept, d.2)
  }

  method RetryFailedReceivedMessages(account: AccountData, queue: MessageQueueTable, co: Collaborators,
                                     cacheExists: bool, files: seq<Bytes>)
    returns (r: Result<seq<Delivery>, HandleError>, kept: seq<Bytes>)
    requires account.Valid() && queue.Value().Valid()
    modifies account, account.groupStore, queue
    ensures account.Valid() && queue.Value().Valid() && queue.nextId == old(queue.nextId)
    ensures (r, account.State(), kept, queue.rows) == RetrySpec(account.address, co, old(account.State()), cacheExists, files, old(queue.rows))
  {
    if !cacheExists {
      return Ok([]), files;
    }
    var w;
    w, kept := WalkCache(account, co, files);
    if w.Err? {
      return w, kept;
    }
    var d := DrainQueue(account, queue, co);
    r := After(w.value, d);
  }

  // ---------------------------------------------------------------------------
  // receiveMessages

  /**
   * What the pipe does on one read: an envelope arrives (and the callback
   * manages to store it, or not), the read times out, or the envelope has
   * an unsupported version.
   */
  datatype PipeEvent = Arrived(envelope: Envelope, stored: bool) | Timeout | InvalidVersion

  /** The queue after one envelope from the pipe: stored first, deleted once the handler has seen it. */
  function AfterArrival(q: Queue, envelope: Envelope, stored: bool, handled: bool): Queue
  {
    if !stored then q
    else if handled then Stored(q, envelope).(rows := Without(Stored(q, envelope).rows, q.nextId))
    else Stored(q, envelope)
  }

  /**
   * The read loop of `receiveMessages` over a script of pipe events: a
   * timeout returns or is skipped, an unsupported version is skipped, an
   * envelope is stored, processed, handed over and, when stored, deleted.
   * An error of the handling leaves the loop with the envelope still
   * stored. The script ending ends the loop.
   */
  function PipeLoop(self: Address, co: Collaborators, st: AccountState, q: Queue, events: seq<PipeEvent>, returnOnTimeout: bool)
    : (Result<seq<Delivery>, HandleError>, AccountState, Queue)
    decreases |events|
  {
    if events == [] then (Ok([]), st, q)
    else
      match events[0]
      case Timeout =>
        if returnOnTimeout then (Ok([]), st, q) else PipeLoop(self, co, st, q, events[1..], returnOnTimeout)
      case InvalidVersion => PipeLoop(self, co, st, q, events[1..], returnOnTimeout)
      case Arrived(envelope, stored) =>
        var (p, processed) := ProcessSpec(self, co, st, envelope);
        if p.Err? then (Err(p.error), processed, AfterArrival(q, envelope, stored, false))
        else
          var w := PipeLoop(self, co, processed, AfterArrival(q, envelope, stored, true), events[1..], returnOnTimeout);
          (Prepend(p.value, w.0), w.1, w.2)
  }

  /**
   * An envelope is stored before it is handled and deleted after: once the
   * handler has seen it the queue holds the rows it held before, and when
   * its handling fails the stored row stays for the next retry.
   */
  lemma StoredUntilHandled(q: Queue, envelope: Envelope)
    requires q.Valid()
    ensures AfterArrival(q, envelope, true, true).rows == q.rows
    ensures AfterArrival(q, envelope, true, false).rows == q.rows + [StoredEnvelope(q.nextId, envelope)]
    ensures AfterArrival(q, envelope, true, false).Valid()
  {
    WithoutNewest(q.rows, StoredEnvelope(q.nextId, envelope));
  }

  /** Some envelope of the script arrived, was stored, and its handling fails in some state. */
  ghost predicate FailedStoredArrival(self: Address, co: Collaborators, events: seq<PipeEvent>, envelope: Envelope)
  {
    exists i, st :: 0 <= i < |events| && events[i] == Arrived(envelope, true) && ProcessSpec(self, co, st, envelope).0.Err?
  }

  /**
   * The rows a read loop leaves: the rows of `q` when it completes; when it
   * fails, those rows plus at most one new row, newer than all of them,
   * holding a stored envelope of the script whose handling fails.
   */
  ghost predicate LoopRows(self: Address, co: Collaborators, q: Queue, events: seq<PipeEvent>,
                           r: Result<seq<Delivery>, HandleError>, after: Queue)
  {
    && after.Valid()
    && (r.Ok? ==> after.rows == q.rows)
    && (r.Err? ==> after.rows == q.rows ||
                   (&& |after.rows| == |q.rows| + 1 && after.rows[..|q.rows|] == q.rows
                    && after.rows[|q.rows|].databaseId >= q.nextId
                    && FailedStoredArrival(self, co, events, after.rows[|q.rows|].envelope)))
  }

  /** What holds of the rest of the script, from a queue with the same rows and no smaller next id, holds of the script. */
  lemma LoopRowsOfRest(self: Address, co: Collaborators, q: Queue, next: Queue, events: seq<PipeEvent>,
                       r: Result<seq<Delivery>, HandleError>, after: Queue)
    requires events != [] && next.rows == q.rows && next.nextId >= q.nextId
    requires LoopRows(self, co, next, events[1..], r, after)
    ensures LoopRows(self, co, q, events, r, after)
  {
    if r.Err? && after.rows != q.rows {
      var envelope := after.rows[|q.rows|].envelope;
      var i, st :| 0 <= i < |events[1..]| && events[1..][i] == Arrived(envelope, true) && ProcessSpec(self, co, st, envelope).0.Err?;
      assert events[i + 1] == Arrived(envelope, true);
    }
  }

  /**
   * A read loop that completes leaves the queue's rows as they were; one
   * that fails leaves them plus at most one new row, and that row holds a
   * stored envelope of the script whose handling failed.
   */
  lemma {:induction false} PipeLoopQueue(self: Address, co: Collaborators, st: AccountState, q: Queue, events: seq<PipeEvent>, returnOnTimeout: bool)
    requires q.Valid()
    ensures var (r, _, after) := PipeLoop(self, co, st, q, events, returnOnTimeout);
      && after.Valid()
      && (r.Ok? ==> after.rows == q.rows)
      && (r.Err? ==> after.rows == q.rows ||
                     (&& |after.rows| == |q.rows| + 1 && after.rows[..|q.rows|] == q.rows
                      && after.rows[|q.rows|].databaseId >= q.nextId
                      && FailedStoredArrival(self, co, events, after.rows[|q.rows|].envelope)))
    decreases |events|
  {
    var out := PipeLoop(self, co, st, q, events, returnOnTimeout);
    PipeLoopRows(self, co, st, q, events, returnOnTimeout);
    assert LoopRows(self, co, q, events, out.0, out.2);
  }

  lemma {:induction false} PipeLoopRows(self: Address, co: Collaborators, st: AccountState, q: Queue, events: seq<PipeEvent>, returnOnTimeout: bool)
    requires q.Valid()
    ensures var out := PipeLoop(self, co, st, q, events, returnOnTimeout);
      LoopRows(self, co, q, events, out.0, out.2)
    decreases |events|
  {
    if events != [] {
      var out := PipeLoop(self, co, st, q, events, returnOnTimeout);
      match events[0]
      case Timeout =>
        if !returnOnTimeout {
          PipeLoopRows(self, co, st, q, events[1..], returnOnTimeout);
          LoopRowsOfRest(self, co, q, q, events, out.0, out.2);
        }
      case InvalidVersion =>
        PipeLoopRows(self, co, st, q, events[1..], returnOnTimeout);
        LoopRowsOfRest(self, co, q, q, events, out.0, out.2);
      case Arrived(envelope, stored) =>
        var (p, processed) := ProcessSpec(self, co, st, envelope);
        StoredUntilHandled(q, envelope);
        var next := AfterArrival(q, envelope, stored, true);
        if p.Ok? {
          PipeLoopRows(self, co, processed, next, events[1..], returnOnTimeout);
          LoopRowsOfRest(self, co, q, next, events, out.0, out.2);
        } else if stored {
          assert (q.rows + [StoredEnvelope(q.nextId, envelope)])[..|q.rows|] == q.rows;
          assert events[0] == Arrived(envelope, true);
        }
    }
  }

  /**
   * The read loop, after the retry, with one pipe event per read. The
   * pipe's shutdown and `accountData.save` in `finally` are not part of
   * this model.
   */
  method ReadPipe(account: AccountData, queue: MessageQueueTable, co: Collaborators, events: seq<PipeEvent>, returnOnTimeout: bool)
    returns (r: Result<seq<Delivery>, HandleError>)
    requires account.Valid() && queue.Value().Valid()
    modifies account, account.groupStore, queue
    ensures account.Valid()
    ensures (r, account.State(), queue.Value()) == PipeLoop(account.address, co, old(account.State()), old(queue.Value()), events, returnOnTimeout)
  {
    ghost var total := PipeLoop(account.address, co, account.State(), queue.Value(), events, returnOnTimeout);
    var delivered: seq<Delivery> := [];
    var i := 0;
    assert events[0..] == events;
    AfterNothing(total.0);
    while i < |events|
      invariant 0 <= i <= |events| && account.Valid()
      invariant var w := PipeLoop(account.address, co, account.State(), queue.Value(), events[i..], returnOnTimeout);
        total == (After(delivered, w.0), w.1, w.2)
    {
      assert events[i..][1..] == events[i + 1..];
      match events[i] {
        case Timeout =>
          if returnOnTimeout {
            AfterEnd(delivered);
            return Ok(delivered);
          }
        case InvalidVersion =>
        case Arrived(envelope, stored) =>
          ghost var before := queue.Value();
          var databaseId: Option<int> := None;
          if stored {
            var id := queue.StoreEnvelope(envelope);
            databaseId := Some(id);
          }
          var p := Process(account, co, envelope);
          if p.Err? {
            return Err(p.error);
          }
          if databaseId.Some? {
            queue.DeleteEnvelope(databaseId.value);
          }
          assert queue.Value() == AfterArrival(before, envelope, stored, true);
          AfterPrepend(delivered, p.value, PipeLoop(account.address, co, account.State(), queue.Value(), events[i + 1..], returnOnTimeout).0);
          delivered := delivered + [p.value];
      }
      i := i + 1;
    }
    AfterEnd(delivered);
    r := Ok(delivered);
  }

  /** `receiveMessages`: the retry, then the read loop. */
  function ReceiveSpec(self: Address, co: Collaborators, st: AccountState, cacheExists: bool, files: seq<Bytes>, q: Queue,
                       events: seq<PipeEvent>, returnOnTimeout: bool)
    : (Result<seq<Delivery>, HandleError>, AccountState, seq<Bytes>, Queue)
  {
    var (retried, st1, kept, rows) := RetrySpec(self, co, st, cacheExists, files, q.rows);
    if retried.Err? then (retried, st1, kept, q.(rows := rows))
    else
      var w := PipeLoop(self, co, st1, q.(rows := rows), events, returnOnTimeout);
      (After(retried.value, w.0), w.1, kept, w.2)
  }

  /**
   * After a `receiveMessages` that returns normally the queue table is
   * empty when the cache directory exists: the retry drained it and every
   * envelope the loop stored was deleted once handled. Without the cache
   * directory the retry returns at once and the queue keeps its rows.
   */
  lemma ReceiveLeavesQueueEmpty(self: Address, co: Collaborators, st: AccountState, cacheExists: bool, files: seq<Bytes>,
                                q: Queue, events: seq<PipeEvent>, returnOnTimeout: bool)
    requires q.Valid()
    ensures var (r, _, _, after) := ReceiveSpec(self, co, st, cacheExists, files, q, events, returnOnTimeout);
      && (r.Ok? && cacheExists ==> after.rows == [])
      && (r.Ok? && !cacheExists ==> after.rows == q.rows)
  {
    if !cacheExists {
      PipeLoopQueue(self, co, st, q, events, returnOnTimeout);
      return;
    }
    var (w, walked, kept) := CacheWalk(self, co, st, files);
    if w.Ok? {
      DrainOutcome(self, co, walked, q.rows);
      var d := Drain(self, co, walked, q.rows);
      if d.0.Ok? {
        assert q.(rows := d.2).Valid();
        PipeLoopQueue(self, co, d.1, q.(rows := d.2), events, returnOnTimeout);
      }
    }
  }

  method ReceiveMessages(account: AccountData, queue: MessageQueueTable, co: Collaborators, cacheExists: bool, files: seq<Bytes>,
                         events: seq<PipeEvent>, returnOnTimeout: bool)
    returns (r: Result<seq<Delivery>, HandleError>, kept: seq<Bytes>)
    requires account.Valid() && queue.Value().Valid()
    modifies account, account.groupStore, queue
    ensures account.Valid()
    ensures (r, account.State(), kept, queue.Value())
         == ReceiveSpec(account.address, co, old(account.State()), cacheExists, files, old(queue.Value()), events, returnOnTimeout)
  {
    var retried;
    retried, kept := RetryFailedReceivedMessages(account, queue, co, cacheExists, files);
    if retried.Err? {
      return retried, kept;
    }
    var w := ReadPipe(account, queue, co, events, returnOnTimeout);
    r := After(retried.value, w);
  }
}
