/**
 * `SyncedNoteStore`: notes kept in an IndexedDB object store (key path `id`),
 * mirrored to the remote API through a `WebNoteStore`. The object store
 * also holds the sync bookkeeping record under the reserved id `"meta"`.
 */
module SyncedStore {
  import opened Wrappers
  import opened Notes
  import opened Remote

  /** The reserved id of the bookkeeping record. */
  const META: string := "meta"

  /** The bookkeeping record: the watermark of the last completed sync pass. */
  datatype Meta = Meta(lastSync: Option<int>)

  /** What the object store holds under a key: a note, or the bookkeeping record. */
  datatype Record = NoteRecord(note: Note) | MetaRecord(meta: Meta)

  /** The key path `id` of a record; the bookkeeping record's id is forced to `"meta"`. */
  function KeyOf(r: Record): string
  {
    match r
    case NoteRecord(n) => n.id
    case MetaRecord(_) => META
  }

  /** Every record sits under its own id. */
  ghost predicate KeyedById(m: map<string, Record>)
  {
    forall k :: k in m ==> KeyOf(m[k]) == k
  }

  /** The filter `all(since, includeDeleted)` applies to one stored note. */
  predicate Listed(n: Note, since: Option<int>, includeDeleted: bool)
  {
    && (includeDeleted || !IsTombstone(n))
    && n.id != META
    && (Positive(since) ==> n.updated.Some? && n.updated.value > since.value)
  }

  /** The notes `all(since, includeDeleted)` returns from object-store contents `m`. */
  function Visible(m: map<string, Record>, since: Option<int>, includeDeleted: bool): (r: map<string, Note>)
    ensures forall k :: k in r ==> k in m && m[k] == NoteRecord(r[k])
    ensures forall k :: k in r ==> r[k].id != META
    ensures forall k :: k in r && !includeDeleted ==> !IsTombstone(r[k])
    ensures forall k :: k in r && Positive(since) ==> r[k].updated.Some? && r[k].updated.value > since.value
    ensures forall k :: (&& k in m && m[k].NoteRecord? && m[k].note.id != META
                          && (includeDeleted || !IsTombstone(m[k].note))
                          && (!Positive(since) || (m[k].note.updated.Some? && m[k].note.updated.value > since.value)))
                        ==> k in r
  {
    map k | k in m && m[k].NoteRecord? && Listed(m[k].note, since, includeDeleted) :: m[k].note
  }

  /** The bookkeeping record is never listed, whatever the arguments. */
  lemma MetaNeverListed(m: map<string, Record>, since: Option<int>, includeDeleted: bool)
    requires KeyedById(m)
    ensures META !in Visible(m, since, includeDeleted)
  {
  }

  /**
   * A tombstone under its id is listed only with `includeDeleted`; with it,
   * it is listed whenever its `updated` passes the `since` filter.
   */
  lemma TombstoneListing(m: map<string, Record>, n: Note, since: Option<int>)
    requires IsTombstone(n) && n.id != META
    ensures n.id !in Visible(m[n.id := NoteRecord(n)], since, false)
    ensures !Positive(since) || (n.updated.Some? && n.updated.value > since.value)
            ==> Visible(m[n.id := NoteRecord(n)], since, true)[n.id] == n
  {
  }

  /** The last note in `pulled` with the given id. */
  function LastWithId(pulled: seq<Note>, id: string): (r: Option<Note>)
    ensures r.None? <==> forall n :: n in pulled ==> n.id != id
    ensures r.Some? ==> r.value in pulled && r.value.id == id
  {
    if pulled == [] then None
    else if pulled[|pulled| - 1].id == id then Some(pulled[|pulled| - 1])
    else
      assert pulled == pulled[..|pulled| - 1] + [pulled[|pulled| - 1]];
      LastWithId(pulled[..|pulled| - 1], id)
  }

  /** A note with the id that no later note shares is the one `LastWithId` picks. */
  lemma {:induction false} LastWithIdAt(pulled: seq<Note>, i: nat)
    requires i < |pulled|
    requires forall j :: i < j < |pulled| ==> pulled[j].id != pulled[i].id
    ensures LastWithId(pulled, pulled[i].id) == Some(pulled[i])
  {
    if i < |pulled| - 1 {
      var front := pulled[..|pulled| - 1];
      assert front[i] == pulled[i];
      assert forall j :: i < j < |front| ==> front[j] == pulled[j];
      LastWithIdAt(front, i);
    }
  }

  /** Object-store contents after each pulled note is put under its id, in order. */
  function Applied(m: map<string, Record>, pulled: seq<Note>): map<string, Record>
  {
    if pulled == [] then m
    else
      var last := pulled[|pulled| - 1];
      Applied(m, pulled[..|pulled| - 1])[last.id := NoteRecord(last)]
  }

  /**
   * Applying pulled notes: a key some pulled note carries ends up holding the
   * last such note, exactly as pulled (its remote `updated` included); every
   * other key keeps what it had.
   */
  lemma {:induction false} AppliedAt(m: map<string, Record>, pulled: seq<Note>, k: string)
    ensures k in Applied(m, pulled) <==> k in m || LastWithId(pulled, k).Some?
    ensures LastWithId(pulled, k).Some? ==> Applied(m, pulled)[k] == NoteRecord(LastWithId(pulled, k).value)
    ensures LastWithId(pulled, k).None? && k in m ==> Applied(m, pulled)[k] == m[k]
  {
    if pulled != [] {
      AppliedAt(m, pulled[..|pulled| - 1], k);
    }
  }

  /** Applying pulled notes keeps every record under its own id. */
  lemma AppliedKeyed(m: map<string, Record>, pulled: seq<Note>)
    requires KeyedById(m)
    ensures KeyedById(Applied(m, pulled))
  {
    forall k | k in Applied(m, pulled)
      ensures KeyOf(Applied(m, pulled)[k]) == k
    {
      AppliedAt(m, pulled, k);
    }
  }

  /**
   * Applying the same pulled notes a second time leaves the object store as
   * the first application left it.
   */
  lemma AppliedIdempotent(m: map<string, Record>, pulled: seq<Note>)
    ensures Applied(Applied(m, pulled), pulled) == Applied(m, pulled)
  {
    var once := Applied(m, pulled);
    var twice := Applied(once, pulled);
    forall k | true
      ensures (k in twice <==> k in once) && (k in once ==> twice[k] == once[k])
    {
      AppliedAt(m, pulled, k);
      AppliedAt(once, pulled, k);
    }
  }

  /**
   * The apply step compares nothing: a pulled note older than the local copy
   * still replaces it, so a note's `updated` can go down.
   */
  lemma PullMayLowerUpdated()
    ensures var local := Note("id_1", "note", TextContent("new"), 1, Some(300), None);
            var remote := Note("id_1", "note", TextContent("old"), 1, Some(200), None);
            Applied(map["id_1" := NoteRecord(local)], [remote])["id_1"] == NoteRecord(remote)
  {
    var remote := Note("id_1", "note", TextContent("old"), 1, Some(200), None);
    assert [remote][..0] == [];
  }

  /** How the push step of a sync pass ends. */
  datatype PushResult = Pushed | PushOffline | PushRejected

  /**
   * The pushes are issued together (`Promise.all`): one rejection rejects the
   * pass; otherwise one `"no_network"` reply stops it before the pull.
   */
  ghost function PushOutcome(onPost: Note -> Http<Note>, notes: set<Note>): PushResult
  {
    if AnyReply(onPost, notes, Rejected) then PushRejected
    else if AnyReply(onPost, notes, NoNetwork) then PushOffline
    else Pushed
  }

  /** Some note of `notes` settles to the failure `failure` when posted. */
  ghost predicate AnyReply(onPost: Note -> Http<Note>, notes: set<Note>, failure: Reply<Note>)
  {
    exists n :: n in notes && Settle(onPost(n)) == failure
  }

  /** Posting one more note: a failure shows up if it did before or the new note fails so. */
  lemma AnyReplyAdd(onPost: Note -> Http<Note>, notes: set<Note>, n: Note, failure: Reply<Note>)
    ensures AnyReply(onPost, notes + {n}, failure) <==> AnyReply(onPost, notes, failure) || Settle(onPost(n)) == failure
  {
    if AnyReply(onPost, notes + {n}, failure) {
      var m :| m in notes + {n} && Settle(onPost(m)) == failure;
    }
  }

  /** How a sync pass ends. `Synced` carries the notes the pull returned. */
  datatype SyncOutcome = Synced(pulled: seq<Note>) | Offline | Failed | NoRemote

  /** The outcome of a pass that pushes `pushed` and, if that succeeds, pulls `pullUrl`. */
  ghost function PassOutcome(onPost: Note -> Http<Note>, onGet: string -> Http<seq<Note>>,
                             pushed: set<Note>, pullUrl: string): SyncOutcome
  {
    match PushOutcome(onPost, pushed)
    case PushRejected => Failed
    case PushOffline => Offline
    case Pushed =>
      match Settle(onGet(pullUrl))
      case Value(notes) => Synced(notes)
      case NoNetwork => Offline
      case Rejected => Failed
  }

  /** The bodies of the POST requests in a request log. */
  ghost function PostedBodies(reqs: seq<HttpRequest>): set<Note>
  {
    if reqs == [] then {}
    else PostedBodies(reqs[..|reqs| - 1]) + (if reqs[|reqs| - 1].Post? then {reqs[|reqs| - 1].body} else {})
  }

  class SyncedNoteStore {
    /** The object store's records by key. */
    var records: map<string, Record>
    /** The remote client, if one was configured (`webStore || (endpoint && new WebNoteStore(endpoint))`). */
    const webStore: WebNoteStore?

    ghost predicate Valid()
      reads this
    {
      KeyedById(records)
    }

    /** A store opened on a database that already holds `stored`. */
    constructor(stored: map<string, Record>, webStore: WebNoteStore?)
      requires KeyedById(stored)
      ensures Valid() && records == stored && this.webStore == webStore
    {
      records := stored;
      this.webStore := webStore;
    }

    /**
     * `all(since, includeDeleted)`: the stored notes, without the bookkeeping
     * record, without tombstones unless `includeDeleted`, and, when
     * `since > 0`, only those updated after `since`.
     */
    function All(since: Option<int>, includeDeleted: bool): (r: map<string, Note>)
      reads this
      ensures forall k :: k in r ==> k in records && records[k] == NoteRecord(r[k]) && Listed(r[k], since, includeDeleted)
      ensures r == Visible(records, since, includeDeleted)
    {
      Visible(records, since, includeDeleted)
    }

    /** `get(id)`: the record under `id`, or `undefined`. */
    function Get(id: string): (r: Option<Record>)
      reads this
      ensures r.Some? <==> id in records
      ensures r.Some? ==> r.value == records[id]
    {
      if id in records then Some(records[id]) else None
    }

    /**
     * `getMeta()`: the bookkeeping record, or `{lastSync: null}` when there is
     * none. A note stored under `"meta"` has no `lastSync` field, so it reads
     * as no watermark.
     */
    function GetMeta(): (meta: Meta)
      reads this
      ensures META !in records ==> meta == Meta(None)
      ensures META in records && records[META].MetaRecord? ==> meta == records[META].meta
      ensures META in records && records[META].NoteRecord? ==> meta.lastSync == None
    {
      if META in records && records[META].MetaRecord? then records[META].meta else Meta(None)
    }

    /** The notes the next sync pass would push: `all(lastSync, true)`. */
    ghost function PushSet(): map<string, Note>
      reads this
    {
      All(GetMeta().lastSync, true)
    }

    /** `setMeta(meta)`: forces the id to `"meta"` and writes it with the network echo skipped. */
    method SetMeta(meta: Meta)
      requires Valid()
      modifies this
      ensures Valid()
      ensures records == old(records)[META := MetaRecord(meta)]
      ensures GetMeta() == meta
    {
      records := records[META := MetaRecord(meta)];
    }

    /**
     * `add(note)`: inserts a fresh note with `created = updated = now` and
     * `deleted = null`, copying only type and content, then echoes it to the
     * remote. Object-store `add` never overwrites: when the id is taken the
     * request fails, nothing is written and no echo is sent.
     */
    method Add(draft: Draft, now: nat) returns (added: bool)
      requires Valid()
      modifies this, webStore
      ensures Valid()
      ensures var entry := Note(NoteId(now), draft.kind, draft.content, now, Some(now), None);
              && (added <==> entry.id !in old(records))
              && records == (if added then old(records)[entry.id := NoteRecord(entry)] else old(records))
              && (webStore != null ==>
                    webStore.requests == old(webStore.requests)
                                         + (if added then [Post(NotesUrl(webStore.endpoint), entry)] else []))
    {
      var entry := Note(NoteId(now), draft.kind, draft.content, now, Some(now), None);
      if entry.id in records {
        added := false;
      } else {
        records := records[entry.id := NoteRecord(entry)];
        added := true;
        if webStore != null {
          var _ := webStore.Add(entry);
        }
      }
    }

    /**
     * `update(note, skipNetwork)`: unless `skipNetwork`, stamps the caller's
     * note with `updated = now` and echoes it to the remote; in both cases
     * puts it under its id, replacing any previous record. `written` is the
     * note's value after the call.
     */
    method Update(note: Note, skipNetwork: bool, now: nat) returns (written: Note)
      requires Valid()
      modifies this, webStore
      ensures Valid()
      ensures written == if skipNetwork then note else note.(updated := Some(now))
      ensures records == old(records)[note.id := NoteRecord(written)]
      ensures webStore != null ==>
                webStore.requests == old(webStore.requests)
                                     + (if skipNetwork then [] else [Post(NotesUrl(webStore.endpoint), written)])
    {
      written := note;
      if !skipNetwork {
        written := written.(updated := Some(now));
      }
      records := records[written.id := NoteRecord(written)];
      if !skipNetwork && webStore != null {
        var _ := webStore.Add(written);
      }
    }

    /**
     * `remove(note)`: a soft delete. Stamps `deleted` from one clock reading,
     * then `update` stamps `updated` from a second one; the record stays in
     * the store as a tombstone and is echoed to the remote.
     */
    method Remove(note: Note, deletedAt: nat, updatedAt: nat) returns (written: Note)
      requires Valid()
      modifies this, webStore
      ensures Valid()
      ensures written == note.(deleted := Some(deletedAt), updated := Some(updatedAt))
      ensures records == old(records)[note.id := NoteRecord(written)]
      ensures webStore != null ==>
                webStore.requests == old(webStore.requests) + [Post(NotesUrl(webStore.endpoint), written)]
    {
      var marked := note.(deleted := Some(deletedAt));
      written := Update(marked, false, updatedAt);
    }

    /** The apply step: each pulled note goes through `update(n, true)`, in order. */
    method ApplyPulled(pulled: seq<Note>, now: nat)
      requires Valid()
      modifies this, webStore
      ensures Valid()
      ensures records == Applied(old(records), pulled)
      ensures webStore != null ==> webStore.requests == old(webStore.requests)
    {
      var i := 0;
      while i < |pulled|
        invariant 0 <= i <= |pulled|
        invariant Valid()
        invariant records == Applied(old(records), pulled[..i])
        invariant webStore != null ==> webStore.requests == old(webStore.requests)
      {
        assert pulled[..i + 1][..i] == pulled[..i];
        var _ := Update(pulled[i], true, now);
        i := i + 1;
      }
      assert pulled[..|pulled|] == pulled;
    }

    /**
     * The push step of `sync()`: one `webStore.add` per note of `toPush`,
     * awaited together; the step's result is as `PushOutcome` says.
     */
    method PushAll(toPush: map<string, Note>) returns (result: PushResult, ghost pushLog: seq<HttpRequest>)
      requires webStore != null
      modifies webStore
      ensures result == PushOutcome(webStore.onPost, toPush.Values)
      ensures forall r :: r in pushLog ==> r.Post? && r.url == NotesUrl(webStore.endpoint)
      ensures PostedBodies(pushLog) == toPush.Values
      ensures |pushLog| == |toPush.Values|
      ensures webStore.requests == old(webStore.requests) + pushLog
    {
      pushLog := [];
      var pending := toPush.Values;
      ghost var pushed: set<Note> := {};
      var offline, rejected := false, false;
      while pending != {}
        invariant pending !! pushed && pending + pushed == toPush.Values
        invariant webStore.requests == old(webStore.requests) + pushLog
        invariant Pushing(webStore.onPost, NotesUrl(webStore.endpoint), pushLog, pushed, rejected, offline)
        decreases pending
      {
        var note :| note in pending;
        var reply := webStore.Add(note);
        var request := Post(NotesUrl(webStore.endpoint), note);
        PushingStep(webStore.onPost, NotesUrl(webStore.endpoint), pushLog, pushed, rejected, offline, note);
        LogStep(old(webStore.requests), pushLog, request);
        MoveOne(pending, pushed, note);
        pushLog := pushLog + [request];
        if reply.Rejected? {
          rejected := true;
        }
        if reply.NoNetwork? {
          offline := true;
        }
        pending := pending - {note};
        pushed := pushed + {note};
      }
      assert pushed == toPush.Values;
      if rejected {
        result := PushRejected;
      } else if offline {
        result := PushOffline;
      } else {
        result := Pushed;
      }
    }

    /**
     * `sync()`: one pass at clock value `now`. Pushes every note changed since
     * the watermark (tombstones included, the bookkeeping record never); only
     * if no push failed, pulls the remote changes since the watermark and
     * applies them without echo; only then sets the watermark to `now`, the
     * time read before the push. A pass that stops early changes nothing
     * locally. With no remote configured the pass throws before any request.
     */
    method Sync(now: nat) returns (outcome: SyncOutcome, ghost pushLog: seq<HttpRequest>)
      requires Valid()
      modifies this, webStore
      ensures Valid()
      ensures webStore == null ==> outcome == NoRemote
      ensures webStore != null ==>
                outcome == PassOutcome(webStore.onPost, webStore.onGet, old(PushSet()).Values,
                                       ListUrl(webStore.endpoint, old(GetMeta().lastSync), true))
      ensures webStore != null ==>
                && (forall r :: r in pushLog ==> r.Post? && r.url == NotesUrl(webStore.endpoint))
                && PostedBodies(pushLog) == old(PushSet()).Values
                && |pushLog| == |old(PushSet()).Values|
                && webStore.requests
                   == old(webStore.requests) + pushLog
                      + (if PushOutcome(webStore.onPost, old(PushSet()).Values) == Pushed
                         then [HttpRequest.Get(ListUrl(webStore.endpoint, old(GetMeta().lastSync), true))]
                         else [])
      ensures outcome.Synced? ==> records == Applied(old(records), outcome.pulled)[META := MetaRecord(Meta(Some(now)))]
      ensures !outcome.Synced? ==> records == old(records)
      ensures GetMeta() == if outcome.Synced? then Meta(Some(now)) else old(GetMeta())
    {
      var meta := GetMeta();
      var lastSync := meta.lastSync;
      var currentSync := now;
      var toPush := All(lastSync, true);
      pushLog := [];
      if webStore == null {
        outcome := NoRemote;
        return;
      }
      var pushed;
      pushed, pushLog := PushAll(toPush);
      if pushed == PushRejected {
        outcome := Failed;
        return;
      }
      if pushed == PushOffline {
        outcome := Offline;
        return;
      }
      var reply := webStore.All(lastSync, true);
      match reply {
        case NoNetwork =>
          outcome := Offline;
        case Rejected =>
          outcome := Failed;
        case Value(pulled) =>
          ApplyPulled(pulled, now);
          SetMeta(Meta(Some(currentSync)));
          outcome := Synced(pulled);
      }
    }
  }

  /** Moving one element from `pending` to `done` keeps them a partition of the same set. */
  lemma MoveOne<T>(pending: set<T>, done: set<T>, x: T)
    requires pending !! done && x in pending
    ensures (pending - {x}) !! (done + {x})
    ensures (pending - {x}) + (done + {x}) == pending + done
  {
  }

  /** Extending a log by one request. */
  lemma LogStep(before: seq<HttpRequest>, log: seq<HttpRequest>, r: HttpRequest)
    ensures before + log + [r] == before + (log + [r])
  {
  }

  /** `log` is one POST of each note of `notes` to `url`, and nothing else. */
  ghost predicate PostLog(log: seq<HttpRequest>, url: string, notes: set<Note>)
  {
    && (forall r :: r in log ==> r.Post? && r.url == url)
    && PostedBodies(log) == notes
    && |log| == |notes|
  }

  /**
   * The state of the push step after posting the notes `pushed`: the log
   * holds their POSTs, and each flag says whether some reply was that failure.
   */
  ghost predicate Pushing(onPost: Note -> Http<Note>, url: string, log: seq<HttpRequest>,
                          pushed: set<Note>, rejected: bool, offline: bool)
  {
    && PostLog(log, url, pushed)
    && (rejected <==> AnyReply(onPost, pushed, Rejected))
    && (offline <==> AnyReply(onPost, pushed, NoNetwork))
  }

  /** Posting one more note and recording its reply keeps `Pushing`. */
  lemma PushingStep(onPost: Note -> Http<Note>, url: string, log: seq<HttpRequest>,
                    pushed: set<Note>, rejected: bool, offline: bool, n: Note)
    requires Pushing(onPost, url, log, pushed, rejected, offline) && n !in pushed
    ensures Pushing(onPost, url, log + [Post(url, n)], pushed + {n},
                    rejected || Settle(onPost(n)).Rejected?, offline || Settle(onPost(n)).NoNetwork?)
  {
    PostLogStep(log, url, pushed, n);
    AnyReplyAdd(onPost, pushed, n, Rejected);
    AnyReplyAdd(onPost, pushed, n, NoNetwork);
  }

  /** Posting a note not posted before extends the log. */
  lemma PostLogStep(log: seq<HttpRequest>, url: string, notes: set<Note>, n: Note)
    requires PostLog(log, url, notes) && n !in notes
    ensures PostLog(log + [Post(url, n)], url, notes + {n})
  {
    assert (log + [Post(url, n)])[..|log|] == log;
  }

  /**
   * After a completed pass, a pulled note (not under the reserved id) is
   * stored exactly as the remote sent it, `updated` included, and the
   * watermark is the pass's start time; keys nothing pulled touched keep
   * their records.
   */
  lemma CommittedPass(m: map<string, Record>, pulled: seq<Note>, now: int, k: string)
    requires k != META
    ensures var after := Applied(m, pulled)[META := MetaRecord(Meta(Some(now)))];
            && after[META] == MetaRecord(Meta(Some(now)))
            && (LastWithId(pulled, k).Some? ==> k in after && after[k] == NoteRecord(LastWithId(pulled, k).value))
            && (LastWithId(pulled, k).None? ==> (k in after <==> k in m) && (k in m ==> after[k] == m[k]))
  {
    AppliedAt(m, pulled, k);
  }
  /**
   * The watermark a pass commits is the time read before its push, so a
   * pulled note stamped later than that is listed for the next pass's push
   * (`all(lastSync, true)`) and goes back to the remote once more.
   */
  lemma PulledNoteRepushed(m: map<string, Record>, pulled: seq<Note>, now: int, n: Note)
    requires n.id != META && LastWithId(pulled, n.id) == Some(n)
    requires n.updated.Some? && n.updated.value > now
    ensures var after := Applied(m, pulled)[META := MetaRecord(Meta(Some(now)))];
            n.id in Visible(after, Some(now), true) && Visible(after, Some(now), true)[n.id] == n
  {
    CommittedPass(m, pulled, now, n.id);
  }

}
