/** Shipping of blocks to the bucket: what upload, clean-up and deletion keep at every step, with
    any operation allowed to fail, and a process allowed to stop anywhere. */
module Shipping {

  const META_FILENAME := "meta.json"
  const DELETION_MARK_FILENAME := "deletion-mark.json"

  type Id = nat

  datatype Name = Name(id: Id, path: string)

  /** What is stored: data, or a meta file with the files it lists. */
  datatype Content = Data | Meta(files: seq<string>)

  type Objects = map<Name, Content>

  /** Every meta file in the bucket lists files that are all there. */
  ghost predicate Complete(b: Objects) {
    forall id :: Name(id, META_FILENAME) in b ==> Listed(b, id)
  }

  ghost predicate Listed(b: Objects, id: Id)
    requires Name(id, META_FILENAME) in b
  {
    var m := b[Name(id, META_FILENAME)];
    m.Meta? && forall i :: 0 <= i < |m.files| ==> Name(id, m.files[i]) in b
  }

  class Bucket {
    const reliable: bool          // no operation fails
    var objects: Objects
    ghost var history: seq<Objects>   // the states the bucket has been in
    ghost var faults: nat             // the operations that have failed

    /** Every state has been complete, up to the present one. */
    ghost predicate Safe()
      reads this
    {
      Complete(objects) && forall i :: 0 <= i < |history| ==> Complete(history[i])
    }

    constructor (reliable: bool)
      ensures Safe() && objects == map[] && this.reliable == reliable
    {
      this.reliable := reliable;
      objects := map[];
      history := [];
      faults := 0;
    }

    method Exists(name: Name) returns (ok: bool, exists': bool)
      modifies this`faults
      ensures faults == old(faults) + if ok then 0 else 1
      ensures ok ==> (exists' <==> name in objects)
      ensures reliable ==> ok
    {
      ok := *;
      if reliable {
        ok := true;
      }
      exists' := name in objects;
      faults := faults + if ok then 0 else 1;
    }

    /** A failed upload may have stored the object all the same.  That the bucket is then complete
        is for the caller to show, for every upload it tries. */
    method Upload(name: Name, content: Content) returns (ok: bool)
      requires Safe() && Complete(objects[name := content])
      modifies this
      ensures Safe()
      ensures (objects == old(objects)[name := content] && history == old(history) + [objects])
        || (objects == old(objects) && history == old(history) && !ok)
      ensures faults == old(faults) + if ok then 0 else 1
      ensures reliable ==> ok
    {
      ok := *;
      var stored: bool := *;
      if reliable {
        ok := true;
      }
      if ok || stored {
        objects := objects[name := content];
        history := history + [objects];
      }
      faults := faults + if ok then 0 else 1;
    }

    /** A failed deletion may have removed the object all the same; see `Upload`. */
    method Delete(name: Name) returns (ok: bool)
      requires Safe() && Complete(objects - {name})
      modifies this
      ensures Safe()
      ensures (objects == old(objects) - {name} && history == old(history) + [objects])
        || (objects == old(objects) && history == old(history) && !ok)
      ensures faults == old(faults) + if ok then 0 else 1
      ensures reliable ==> ok
    {
      ok := *;
      var removed: bool := *;
      if reliable {
        ok := true;
      }
      if ok || removed {
        objects := objects - {name};
        history := history + [objects];
      }
      faults := faults + if ok then 0 else 1;
    }
  }

  // ----- one step at a time -----

  /** Data may be added at any time, under any name but that of a meta file. */
  lemma DataKeepsComplete(b: Objects, name: Name)
    requires Complete(b) && name.path != META_FILENAME
    ensures Complete(b[name := Data])
  {
    var b' := b[name := Data];
    forall id | Name(id, META_FILENAME) in b' ensures Listed(b', id) {
      assert Listed(b, id);
    }
  }

  /** A meta file may be added once the files it lists are there. */
  lemma MetaKeepsComplete(b: Objects, id: Id, files: seq<string>)
    requires Complete(b) && forall i :: 0 <= i < |files| ==> Name(id, files[i]) in b
    ensures Complete(b[Name(id, META_FILENAME) := Meta(files)])
  {
    var b' := b[Name(id, META_FILENAME) := Meta(files)];
    forall k | Name(k, META_FILENAME) in b' ensures Listed(b', k) {
      if k != id {
        assert Listed(b, k);
      }
    }
  }

  /** The meta file of a block may go; without it, anything of the block may go. */
  lemma DeletionKeepsComplete(b: Objects, name: Name)
    requires Complete(b) && (name.path == META_FILENAME || Name(name.id, META_FILENAME) !in b)
    ensures Complete(b - {name})
  {
    var b' := b - {name};
    forall id | Name(id, META_FILENAME) in b' ensures Listed(b', id) {
      assert Listed(b, id);
    }
  }

  ghost predicate SameObject(b: Objects, b': Objects, n: Name) {
    (n in b <==> n in b') && (n in b ==> b[n] == b'[n])
  }

  /** Only the objects of one block have changed. */
  ghost predicate OnlyBlock(b: Objects, b': Objects, id: Id) {
    forall n: Name :: n.id != id ==> SameObject(b, b', n)
  }

  /** `deleteDirRec`, with the directories flattened: everything of a block but what is kept. */
  method DeleteFiles(bkt: Bucket, id: Id, keep: set<Name>) returns (ok: bool)
    requires bkt.Safe() && Name(id, META_FILENAME) !in bkt.objects
    modifies bkt
    ensures bkt.Safe() && old(bkt.history) <= bkt.history && OnlyBlock(old(bkt.objects), bkt.objects, id)
    ensures bkt.objects.Keys <= old(bkt.objects.Keys)
    ensures ok ==> forall n :: n in bkt.objects && n.id == id ==> n in keep
    ensures bkt.faults == old(bkt.faults) + if ok then 0 else 1
    ensures bkt.reliable ==> ok
  {
    hide Complete;
    ok := true;
    var left: set<Name> := set n | n in bkt.objects && n.id == id && n !in keep;
    while left != {}
      invariant bkt.Safe() && old(bkt.history) <= bkt.history && OnlyBlock(old(bkt.objects), bkt.objects, id)
      invariant bkt.objects.Keys <= old(bkt.objects.Keys) && ok && bkt.faults == old(bkt.faults)
      invariant forall n :: n in left ==> n.id == id
      invariant forall n :: n in bkt.objects && n.id == id ==> n in keep || n in left
    {
      var n :| n in left;
      DeletionKeepsComplete(bkt.objects, n);
      ok := bkt.Delete(n);
      if !ok {
        return;
      }
      left := left - {n};
    }
  }

  /** `Delete`: the meta file first, the deletion mark last. */
  method DeleteBlock(bkt: Bucket, id: Id) returns (ok: bool)
    requires bkt.Safe()
    modifies bkt
    ensures bkt.Safe() && old(bkt.history) <= bkt.history && OnlyBlock(old(bkt.objects), bkt.objects, id)
    ensures ok ==> Absent(bkt.objects, id)
    ensures bkt.faults == old(bkt.faults) + if ok then 0 else 1
    ensures bkt.reliable ==> ok
  {
    hide Complete;
    var metaFile, deletionMarkFile := Name(id, META_FILENAME), Name(id, DELETION_MARK_FILENAME);
    var there;
    ok, there := bkt.Exists(metaFile);
    if !ok {
      return;
    }
    if there {
      DeletionKeepsComplete(bkt.objects, metaFile);
      ok := bkt.Delete(metaFile);
      if !ok {
        return;
      }
    }
    ok := DeleteFiles(bkt, id, {metaFile, deletionMarkFile});
    if !ok {
      return;
    }
    ok, there := bkt.Exists(deletionMarkFile);
    if !ok {
      return;
    }
    if there {
      DeletionKeepsComplete(bkt.objects, deletionMarkFile);
      ok := bkt.Delete(deletionMarkFile);
    }
  }

  /** A local block: its files, and its level of compaction. */
  datatype Block = Block(id: Id, files: seq<string>, level: nat)

  ghost predicate Absent(b: Objects, id: Id) {
    forall n :: n in b ==> n.id != id
  }

  ghost predicate FilesThere(b: Objects, m: Block) {
    forall k :: 0 <= k < |m.files| ==> Name(m.id, m.files[k]) in b
  }

  datatype Outcome = Uploaded | FileFailed(cleaned: bool) | MetaFailed

  /** `upload`: all files, then the meta file; clean-up if a file fails, none if the meta file does.
      If but one operation fails, the block is gone, or it lacks its meta file at most. */
  method UploadBlock(bkt: Bucket, m: Block) returns (outcome: Outcome)
    requires bkt.Safe() && META_FILENAME !in m.files
    modifies bkt
    ensures bkt.Safe() && old(bkt.history) <= bkt.history && OnlyBlock(old(bkt.objects), bkt.objects, m.id)
    ensures match outcome
      case Uploaded =>
        && bkt.faults == old(bkt.faults) && FilesThere(bkt.objects, m)
        && Name(m.id, META_FILENAME) in bkt.objects && bkt.objects[Name(m.id, META_FILENAME)] == Meta(m.files)
      case FileFailed(cleaned) =>
        if cleaned then bkt.faults == old(bkt.faults) + 1 && Absent(bkt.objects, m.id) else bkt.faults == old(bkt.faults) + 2
      case MetaFailed =>
        bkt.faults == old(bkt.faults) + 1 && FilesThere(bkt.objects, m)
    ensures bkt.reliable ==> outcome == Uploaded
  {
    hide Complete;
    for i := 0 to |m.files|
      invariant bkt.Safe() && old(bkt.history) <= bkt.history && OnlyBlock(old(bkt.objects), bkt.objects, m.id)
      invariant bkt.faults == old(bkt.faults)
      invariant forall k :: 0 <= k < i ==> Name(m.id, m.files[k]) in bkt.objects
    {
      var name := Name(m.id, m.files[i]);
      DataKeepsComplete(bkt.objects, name);
      var ok := bkt.Upload(name, Data);
      if !ok {
        var cleaned := DeleteBlock(bkt, m.id);
        return FileFailed(cleaned);
      }
    }
    MetaKeepsComplete(bkt.objects, m.id, m.files);
    var ok := bkt.Upload(Name(m.id, META_FILENAME), Meta(m.files));
    outcome := if ok then Uploaded else MetaFailed;
  }

  // ----- the shipper -----

  ghost predicate Local(metas: seq<Block>, id: Id) {
    exists i :: 0 <= i < |metas| && metas[i].id == id
  }

  /** An attempt to upload a block. */
  datatype Attempt = Attempt(block: Block, ok: bool)

  /** What a pass does for a block: nothing, as it is known, in the bucket, or not to be shipped; try to upload it;
      or end. */
  datatype Step = Known | Ignore | Uploading(ok: bool) | Stop

  /** The blocks uploaded. */
  ghost function Succeeded(tried: seq<Attempt>): set<Id> {
    set k | 0 <= k < |tried| && tried[k].ok :: tried[k].block.id
  }

  ghost predicate AnyFailed(tried: seq<Attempt>) {
    exists k :: 0 <= k < |tried| && !tried[k].ok
  }

  ghost predicate FailedOn(tried: seq<Attempt>, id: Id) {
    exists k :: 0 <= k < |tried| && tried[k].block.id == id && !tried[k].ok
  }

  ghost predicate InBucket(b: Objects, id: Id) {
    Name(id, META_FILENAME) in b
  }

  ghost predicate NoneGone(before: Objects, now: Objects) {
    forall id :: InBucket(before, id) ==> InBucket(now, id)
  }

  /** Every block uploaded has its meta file in the bucket now, and had none before. */
  ghost predicate Arrived(tried: seq<Attempt>, before: Objects, now: Objects) {
    forall id :: id in Succeeded(tried) ==> !InBucket(before, id) && InBucket(now, id)
  }

  class Shipper {
    const bucket: Bucket
    const uploadCompacted: bool
    const allowOutOfOrderUploads: bool
    var uploaded: seq<Id>   // the shipper's own file, of the blocks it has uploaded
    ghost var attempts: seq<Attempt>   // all uploads, with their outcome

    constructor (bucket: Bucket, uploadCompacted: bool, allowOutOfOrderUploads: bool)
      ensures this.bucket == bucket && uploaded == [] && attempts == []
      ensures this.uploadCompacted == uploadCompacted && this.allowOutOfOrderUploads == allowOutOfOrderUploads
    {
      this.bucket, this.uploadCompacted, this.allowOutOfOrderUploads := bucket, uploadCompacted, allowOutOfOrderUploads;
      uploaded, attempts := [], [];
    }

    predicate Skipped(m: Block) {
      m.level > 1 && !uploadCompacted
    }

    /** Nothing to do for a block: it is of a level that is not shipped, or known to be uploaded. */
    ghost predicate Settled(metas: seq<Block>, known: seq<Id>) {
      forall i :: 0 <= i < |metas| ==> Skipped(metas[i]) || metas[i].id in known
    }

    /** Every block that is shipped has its meta file in the bucket, or was known to be uploaded before. */
    ghost predicate Shipped(metas: seq<Block>, known: seq<Id>, b: Objects) {
      forall i :: 0 <= i < |metas| ==> Skipped(metas[i]) || metas[i].id in known || InBucket(b, metas[i].id)
    }

    /** Only blocks that are shipped and not known have been tried. */
    ghost predicate Tried(metas: seq<Block>, known: seq<Id>, tried: seq<Attempt>) {
      forall k :: 0 <= k < |tried| ==> tried[k].block in metas && !Skipped(tried[k].block) && tried[k].block.id !in known
    }

    /** Where a pass stands after `n` of the blocks: `list` has those known or in the bucket, all others
        are skipped or have been tried without success, and no meta file has gone. */
    ghost predicate Passing(metas: seq<Block>, n: nat, known: seq<Id>, before: Objects, now: Objects, list: seq<Id>,
                            tried: seq<Attempt>)
      requires n <= |metas|
    {
      && NoneGone(before, now) && Arrived(tried, before, now) && Tried(metas, known, tried)
      && (forall id :: id in list ==> Local(metas, id) && (id in known || InBucket(now, id)))
      && (forall i :: 0 <= i < n ==> Reached(metas[i], known, list, tried))
    }

    ghost predicate Reached(m: Block, known: seq<Id>, list: seq<Id>, tried: seq<Attempt>) {
      if m.id in known then m.id in list else Skipped(m) || m.id in list || FailedOn(tried, m.id)
    }

    /** Where a pass stands, with its counters. */
    ghost predicate Standing(metas: seq<Block>, n: nat, known: seq<Id>, before: Objects, now: Objects, list: seq<Id>,
                             tried: seq<Attempt>, count: nat, uploadErrs: nat)
      requires n <= |metas|
    {
      && Passing(metas, n, known, before, now, list, tried)
      && (forall n: Name :: !Local(metas, n.id) ==> SameObject(before, now, n))
      && count == |Succeeded(tried)| && (uploadErrs > 0 <==> AnyFailed(tried))
    }

    lemma PassStarts(metas: seq<Block>, known: seq<Id>, before: Objects)
      ensures Standing(metas, 0, known, before, before, [], [], 0, 0)
    {
      NothingTried();
    }

    /** A block that needs no upload. */
    lemma PassOver(metas: seq<Block>, n: nat, known: seq<Id>, before: Objects, now: Objects, list: seq<Id>, tried: seq<Attempt>)
      requires n < |metas| && Passing(metas, n, known, before, now, list, tried)
      ensures var m := metas[n];
        && (Skipped(m) && m.id !in known ==> Passing(metas, n + 1, known, before, now, list, tried))
        && (m.id in known || InBucket(now, m.id) ==> Passing(metas, n + 1, known, before, now, list + [m.id], tried))
    {
      assert Local(metas, metas[n].id);
      hide Arrived, NoneGone, Tried, FailedOn, Skipped, InBucket, Local;
    }

    lemma ReachedMore(metas: seq<Block>, n: nat, known: seq<Id>, list: seq<Id>, tried: seq<Attempt>, ok: bool)
      requires n < |metas| && forall i :: 0 <= i < n ==> Reached(metas[i], known, list, tried)
      requires metas[n].id !in known
      ensures var list', tried' := if ok then list + [metas[n].id] else list, tried + [Attempt(metas[n], ok)];
        forall i :: 0 <= i < n + 1 ==> Reached(metas[i], known, list', tried')
    {
      AttemptMore(tried, metas[n], ok);
      hide FailedOn, Skipped, Succeeded, AnyFailed;
    }

    lemma TriedMore(metas: seq<Block>, m: Block, known: seq<Id>, tried: seq<Attempt>, ok: bool)
      requires Tried(metas, known, tried) && m in metas && !Skipped(m) && m.id !in known
      ensures Tried(metas, known, tried + [Attempt(m, ok)])
    {
    }

    lemma ListMore(metas: seq<Block>, m: Block, known: seq<Id>, was: Objects, now: Objects, list: seq<Id>)
      requires m in metas && NoneGone(was, now) && InBucket(now, m.id)
      requires forall id :: id in list ==> Local(metas, id) && (id in known || InBucket(was, id))
      ensures forall id :: id in list + [m.id] ==> Local(metas, id) && (id in known || InBucket(now, id))
    {
      assert Local(metas, m.id);
      hide InBucket, Local;
    }

    /** A block that has been tried. */
    lemma PassTried(metas: seq<Block>, n: nat, known: seq<Id>, before: Objects, was: Objects, now: Objects, list: seq<Id>,
                    tried: seq<Attempt>, ok: bool)
      requires n < |metas| && Passing(metas, n, known, before, was, list, tried)
      requires !Skipped(metas[n]) && metas[n].id !in known && !InBucket(was, metas[n].id)
      requires NoneGone(was, now) && (ok ==> InBucket(now, metas[n].id))
      ensures Passing(metas, n + 1, known, before, now, if ok then list + [metas[n].id] else list, tried + [Attempt(metas[n], ok)])
    {
      var m := metas[n];
      ArrivedMore(tried, m, ok, before, was, now);
      TriedMore(metas, m, known, tried, ok);
      ReachedMore(metas, n, known, list, tried, ok);
      if ok {
        ListMore(metas, m, known, was, now, list);
      }
      hide Local, Arrived, Tried, Reached, Skipped;
    }

    lemma StandingPassed(metas: seq<Block>, n: nat, known: seq<Id>, before: Objects, now: Objects, list: seq<Id>,
                         tried: seq<Attempt>, count: nat, uploadErrs: nat)
      requires n < |metas| && Standing(metas, n, known, before, now, list, tried, count, uploadErrs)
      ensures var m := metas[n];
        && (Skipped(m) && m.id !in known ==> Standing(metas, n + 1, known, before, now, list, tried, count, uploadErrs))
        && (m.id in known || InBucket(now, m.id) ==>
              Standing(metas, n + 1, known, before, now, list + [m.id], tried, count, uploadErrs))
    {
      PassOver(metas, n, known, before, now, list, tried);
      hide Passing, Local, SameObject, Skipped, AnyFailed, Succeeded;
    }

    lemma StandingTried(metas: seq<Block>, n: nat, known: seq<Id>, before: Objects, was: Objects, now: Objects, list: seq<Id>,
                        tried: seq<Attempt>, ok: bool, count: nat, uploadErrs: nat)
      requires n < |metas| && Standing(metas, n, known, before, was, list, tried, count, uploadErrs)
      requires !Skipped(metas[n]) && metas[n].id !in known && !InBucket(was, metas[n].id)
      requires OnlyBlock(was, now, metas[n].id) && (ok ==> InBucket(now, metas[n].id))
      ensures Standing(metas, n + 1, known, before, now, if ok then list + [metas[n].id] else list, tried + [Attempt(metas[n], ok)],
        if ok then count + 1 else count, if ok then uploadErrs else uploadErrs + 1)
    {
      KeptInBucket(was, now, metas[n].id);
      PassTried(metas, n, known, before, was, now, list, tried, ok);
      FrameMore(metas, metas[n], before, was, now);
      assert NoneGone(before, was) && Arrived(tried, before, was);
      ArrivedMore(tried, metas[n], ok, before, was, now);
      AttemptMore(tried, metas[n], ok);
      hide Passing, Local, SameObject, Skipped, AnyFailed, Succeeded, Arrived, FailedOn;
    }

    /** What holds of a pass at any point. */
    lemma StandingSoFar(metas: seq<Block>, n: nat, known: seq<Id>, before: Objects, now: Objects, list: seq<Id>,
                        tried: seq<Attempt>, count: nat, uploadErrs: nat)
      requires n <= |metas| && Standing(metas, n, known, before, now, list, tried, count, uploadErrs)
      ensures Tried(metas, known, tried) && Arrived(tried, before, now) && NoneGone(before, now)
      ensures count == |Succeeded(tried)| && (uploadErrs > 0 <==> AnyFailed(tried))
      ensures forall id :: id in list ==> id in known || InBucket(now, id)
      ensures forall n: Name :: !Local(metas, n.id) ==> SameObject(before, now, n)
      ensures Passing(metas, n, known, before, now, list, tried)
      ensures n == |metas| && uploadErrs == 0 ==> Settled(metas, list) && Shipped(metas, known, now)
    {
      hide Arrived, NoneGone, Skipped, SameObject, Tried, Succeeded, Local;
      if n == |metas| && uploadErrs == 0 {
        forall i | 0 <= i < n ensures Skipped(metas[i]) || metas[i].id in list {
          assert Reached(metas[i], known, list, tried);
        }
      }
    }

    lemma ShippedAnyway(metas: seq<Block>, known: seq<Id>, b: Objects)
      ensures Shipped(metas, [], b) ==> Shipped(metas, known, b)
    {
    }

    lemma SettledAt(metas: seq<Block>, known: seq<Id>, i: nat)
      requires i < |metas|
      ensures Settled(metas, known) ==> Skipped(metas[i]) || metas[i].id in known
    {
    }

    /** `Sync`: one pass over the local blocks. It ends early if the bucket cannot be asked, a compacted block
        overlaps, or an upload fails and uploads are to be in order. */
    method Sync(metas: seq<Block>) returns (count: nat, failed: bool, ghost known: seq<Id>, ghost finished: bool, ghost written: bool)
      requires bucket.Safe() && forall i :: 0 <= i < |metas| ==> META_FILENAME !in metas[i].files
      modifies this, bucket
      ensures bucket.Safe() && old(bucket.history) <= bucket.history && old(attempts) <= attempts
      ensures known == old(uploaded) || known == []
      ensures var tried := attempts[|old(attempts)|..];
        && Tried(metas, known, tried) && Arrived(tried, old(bucket.objects), bucket.objects)
        && (finished ==> count == |Succeeded(tried)| && (failed <==> AnyFailed(tried)))
        && (finished && written ==> Passing(metas, |metas|, known, old(bucket.objects), bucket.objects, uploaded, tried))
      ensures !finished ==> failed && count == 0 && (bucket.faults > old(bucket.faults) || !allowOutOfOrderUploads)
      ensures finished && failed ==> allowOutOfOrderUploads
      ensures !(finished && written) ==> uploaded == old(uploaded) || uploaded == []
      ensures NoneGone(old(bucket.objects), bucket.objects)
      ensures forall id :: id in uploaded ==> id in old(uploaded) || InBucket(bucket.objects, id)
      ensures !failed ==> Shipped(metas, old(uploaded), bucket.objects)
      ensures Settled(metas, known) ==> finished && attempts == old(attempts) && bucket.objects == old(bucket.objects)
      ensures bucket.reliable ==> known == old(uploaded) && (finished ==> written)
      ensures bucket.reliable && !failed ==> Settled(metas, uploaded)
      ensures forall n: Name :: !Local(metas, n.id) ==> SameObject(old(bucket.objects), bucket.objects, n)
    {
      hide *;
      var readable: bool := *;
      var hasUploaded := if readable || bucket.reliable then uploaded else [];
      known, finished, written := hasUploaded, false, false;
      ghost var before, n := bucket.objects, |attempts|;
      var list, uploadErrs, stopped;
      list, count, uploadErrs, stopped := SyncBlocks(metas, hasUploaded);
      if stopped {
        return 0, true, known, false, false;
      }
      StandingSoFar(metas, |metas|, known, before, bucket.objects, list, attempts[n..], count, uploadErrs);
      ShippedAnyway(metas, uploaded, bucket.objects);
      finished := true;
      var saved: bool := *;
      if saved || bucket.reliable {
        uploaded := list;
        written := true;
      } else {
        var lost: bool := *;
        if lost {
          uploaded := [];
        }
      }
      failed := uploadErrs > 0;
    }

    /** The loop of `Sync` over the local blocks. */
    method SyncBlocks(metas: seq<Block>, hasUploaded: seq<Id>) returns (list: seq<Id>, count: nat, uploadErrs: nat, stopped: bool)
      requires bucket.Safe() && forall i :: 0 <= i < |metas| ==> META_FILENAME !in metas[i].files
      modifies this`attempts, bucket
      ensures bucket.Safe() && old(bucket.history) <= bucket.history && old(attempts) <= attempts
      ensures var tried := attempts[|old(attempts)|..];
        if stopped then
          && (bucket.faults > old(bucket.faults) || !allowOutOfOrderUploads)
          && Tried(metas, hasUploaded, tried) && Arrived(tried, old(bucket.objects), bucket.objects)
          && NoneGone(old(bucket.objects), bucket.objects)
          && (forall n: Name :: !Local(metas, n.id) ==> SameObject(old(bucket.objects), bucket.objects, n))
        else
          Standing(metas, |metas|, hasUploaded, old(bucket.objects), bucket.objects, list, tried, count, uploadErrs)
      ensures !stopped && uploadErrs > 0 ==> allowOutOfOrderUploads && !bucket.reliable
      ensures Settled(metas, hasUploaded) ==> !stopped && attempts == old(attempts) && bucket.objects == old(bucket.objects)
    {
      ghost var before, n := bucket.objects, |attempts|;
      list, count, uploadErrs, stopped := [], 0, 0, false;
      PassStarts(metas, hasUploaded, before);
      assert attempts[n..] == [];
      hide *;
      for i := 0 to |metas|
        invariant bucket.Safe() && old(bucket.history) <= bucket.history
        invariant old(attempts) <= attempts && n == |old(attempts)| && bucket.faults >= old(bucket.faults) && !stopped
        invariant Standing(metas, i, hasUploaded, before, bucket.objects, list, attempts[n..], count, uploadErrs)
        invariant uploadErrs > 0 ==> allowOutOfOrderUploads && !bucket.reliable
        invariant Settled(metas, hasUploaded) ==> attempts == old(attempts) && bucket.objects == before
      {
        ghost var was, tried := bucket.objects, attempts[n..];
        SettledAt(metas, hasUploaded, i);
        StandingSoFar(metas, i, hasUploaded, before, was, list, tried, count, uploadErrs);
        StandingPassed(metas, i, hasUploaded, before, was, list, tried, count, uploadErrs);
        var step := SyncBlock(metas[i], hasUploaded);
        match step {
          case Stop =>
            stopped := true;
            return;
          case Ignore =>
          case Known =>
            list := list + [metas[i].id];
          case Uploading(ok) =>
            assert attempts[n..] == tried + [Attempt(metas[i], ok)];
            StandingTried(metas, i, hasUploaded, before, was, bucket.objects, list, tried, ok, count, uploadErrs);
            if ok {
              list := list + [metas[i].id];
              count := count + 1;
            } else {
              uploadErrs := uploadErrs + 1;
              if !allowOutOfOrderUploads {
                StandingSoFar(metas, i + 1, hasUploaded, before, bucket.objects, list, attempts[n..], count, uploadErrs);
                stopped := true;
                return;
              }
            }
        }
      }
    }

    /** What `Sync` does for one block. */
    method SyncBlock(m: Block, hasUploaded: seq<Id>) returns (step: Step)
      requires bucket.Safe() && META_FILENAME !in m.files
      modifies this`attempts, bucket
      ensures bucket.Safe() && old(bucket.history) <= bucket.history && bucket.faults >= old(bucket.faults)
      ensures !step.Uploading? ==> attempts == old(attempts) && bucket.objects == old(bucket.objects)
      ensures Skipped(m) || m.id in hasUploaded ==> step.Ignore? || step.Known?
      ensures match step
        case Known => m.id in hasUploaded || InBucket(bucket.objects, m.id)
        case Ignore => Skipped(m) && m.id !in hasUploaded
        case Uploading(ok) =>
          && attempts == old(attempts) + [Attempt(m, ok)] && !InBucket(old(bucket.objects), m.id)
          && OnlyBlock(old(bucket.objects), bucket.objects, m.id)
          && (ok ==> InBucket(bucket.objects, m.id)) && (bucket.reliable ==> ok)
        case Stop => bucket.faults > old(bucket.faults) || !allowOutOfOrderUploads
    {
      hide Complete, OnlyBlock;
      if m.id in hasUploaded {
        return Known;
      }
      if m.level > 1 {
        if !uploadCompacted {
          return Ignore;
        }
      }
      var ok, there := bucket.Exists(Name(m.id, META_FILENAME));
      if !ok {
        return Stop;
      }
      if there {
        return Known;
      }
      if m.level > 1 && !allowOutOfOrderUploads {
        var overlaps: bool := *;
        if overlaps {
          return Stop;
        }
      }
      ok := UploadLocal(m);
      return Uploading(ok);
    }

    /** `Shipper.upload`: the local meta file is rewritten first, which may fail too. */
    method UploadLocal(m: Block) returns (ok: bool)
      requires bucket.Safe() && META_FILENAME !in m.files
      modifies this`attempts, bucket
      ensures bucket.Safe() && old(bucket.history) <= bucket.history && OnlyBlock(old(bucket.objects), bucket.objects, m.id)
      ensures attempts == old(attempts) + [Attempt(m, ok)]
      ensures ok ==> InBucket(bucket.objects, m.id)
      ensures bucket.faults >= old(bucket.faults)
      ensures bucket.reliable ==> ok
    {
      ok := *;
      if ok || bucket.reliable {
        var outcome := UploadBlock(bucket, m);
        ok := outcome.Uploaded?;
      }
      attempts := attempts + [Attempt(m, ok)];
    }
  }

  lemma KeptInBucket(was: Objects, now: Objects, id: Id)
    requires OnlyBlock(was, now, id) && !InBucket(was, id)
    ensures NoneGone(was, now)
  {
    forall k | InBucket(was, k) ensures InBucket(now, k) {
      assert SameObject(was, now, Name(k, META_FILENAME));
    }
  }

  lemma FrameMore(metas: seq<Block>, m: Block, before: Objects, was: Objects, now: Objects)
    requires m in metas && OnlyBlock(was, now, m.id)
    requires forall n: Name :: !Local(metas, n.id) ==> SameObject(before, was, n)
    ensures forall n: Name :: !Local(metas, n.id) ==> SameObject(before, now, n)
  {
    forall n: Name | !Local(metas, n.id) ensures SameObject(before, now, n) {
      assert SameObject(before, was, n) && SameObject(was, now, n);
    }
  }

  lemma ArrivedMore(tried: seq<Attempt>, m: Block, ok: bool, before: Objects, was: Objects, now: Objects)
    requires Arrived(tried, before, was) && !InBucket(was, m.id)
    requires NoneGone(before, was) && NoneGone(was, now) && (ok ==> InBucket(now, m.id))
    ensures Arrived(tried + [Attempt(m, ok)], before, now)
    ensures |Succeeded(tried + [Attempt(m, ok)])| == |Succeeded(tried)| + if ok then 1 else 0
  {
    AttemptMore(tried, m, ok);
    hide Succeeded, InBucket, FailedOn, AnyFailed;
    assert m.id !in Succeeded(tried);
  }

  lemma NothingTried()
    ensures Succeeded([]) == {} && !AnyFailed([])
  {
  }

  /** One more attempt, on a block that had not arrived. */
  lemma AttemptMore(tried: seq<Attempt>, m: Block, ok: bool)
    ensures var tried' := tried + [Attempt(m, ok)];
      && Succeeded(tried') == Succeeded(tried) + (if ok then {m.id} else {})
      && (AnyFailed(tried') <==> AnyFailed(tried) || !ok)
      && (forall id :: FailedOn(tried, id) ==> FailedOn(tried', id))
      && (!ok ==> FailedOn(tried', m.id))
  {
    var tried' := tried + [Attempt(m, ok)];
    assert tried'[|tried|] == Attempt(m, ok);
    assert forall k :: 0 <= k < |tried| ==> tried'[k] == tried[k];
    forall id | id in Succeeded(tried) + (if ok then {m.id} else {}) ensures id in Succeeded(tried') {
      if id in Succeeded(tried) {
        var k :| 0 <= k < |tried| && tried[k].ok && tried[k].block.id == id;
        assert tried'[k].ok && tried'[k].block.id == id;
      }
    }
    if AnyFailed(tried) {
      var k :| 0 <= k < |tried| && !tried[k].ok;
      assert !tried'[k].ok;
    }
    forall id | FailedOn(tried, id) ensures FailedOn(tried', id) {
      var k :| 0 <= k < |tried| && tried[k].block.id == id && !tried[k].ok;
      assert tried'[k].block.id == id;
    }
  }

  /** Without faults, a second pass with no new blocks uploads nothing. */
  method SyncTwice(s: Shipper, metas: seq<Block>) returns (first: nat, second: nat, failed: bool)
    requires s.bucket.Safe() && s.bucket.reliable && forall i :: 0 <= i < |metas| ==> META_FILENAME !in metas[i].files
    modifies s, s.bucket
    ensures s.bucket.Safe()
    ensures !failed ==> second == 0
  {
    ghost var known, finished, written;
    first, failed, known, finished, written := s.Sync(metas);
    second := 0;
    if !failed {
      ghost var n := |s.attempts|;
      var failedAgain;
      second, failedAgain, known, finished, written := s.Sync(metas);
      assert s.attempts[n..] == [];
      NothingTried();
    }
  }
}
