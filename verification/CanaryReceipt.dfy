/** The canary's receipt commit: a temporary file written in pieces, fsynced and renamed over
    the receipt. Every system call may fail, and every state is kept for inspection. */
module CanaryReceipt {
  import opened DurableFiles
  import Utf8

  type Bytes = Utf8.Bytes

  datatype Commit = Committed | Refused | Failed

  /** Whatever a reader or a power loss can find is what was there before or the whole receipt. */
  predicate OldOrNew(before: Name<Bytes>, found: Name<Bytes>, encoded: Bytes) {
    && (found.now == before.now || found.now == Whole(encoded))
    && forall image | image in found.after :: image in before.after || image == Whole(encoded)
  }

  class Directory {
    var target: Name<Bytes>
    var temporary: Name<Bytes>
    ghost var history: seq<Name<Bytes>>
    ghost var failures: nat

    constructor (target: Name<Bytes>)
      ensures this.target == target && temporary == Fresh() && history == [target] && failures == 0
    {
      this.target, temporary := target, Fresh();
      history, failures := [target], 0;
    }

    /** A system call that fails without effect or takes the directory to the given state. */
    method Call(target': Name<Bytes>, temporary': Name<Bytes>) returns (ok: bool)
      modifies this
      ensures ok ==> target == target' && temporary == temporary'
      ensures !ok ==> target == old(target) && temporary == old(temporary)
      ensures history == old(history) + [target] && failures == old(failures) + if ok then 0 else 1
    {
      ok := *;
      if ok {
        target, temporary := target', temporary';
      } else {
        failures := failures + 1;
      }
      history := history + [target];
    }

    /** `os.write`: takes at most what is left and may take less, nothing, or fail. */
    method WriteSome(done: Bytes, remaining: Bytes) returns (written: int)
      requires remaining != []
      modifies this
      ensures written <= |remaining| && target == old(target)
      ensures written > 0 ==> temporary == Write(old(temporary), done + remaining[..written])
      ensures written <= 0 ==> temporary == old(temporary)
      ensures history == old(history) + [target] && failures == old(failures) + if written > 0 then 0 else 1
    {
      written :| -1 <= written <= |remaining|;
      if written > 0 {
        temporary := Write(temporary, done + remaining[..written]);
      } else {
        failures := failures + 1;
      }
      history := history + [target];
    }

    /** The write loop: the pieces concatenate to the encoding, however short each one is. */
    method WriteAll(encoded: Bytes) returns (ok: bool)
      requires encoded != []
      modifies this
      ensures target == old(target)
      ensures ok ==> temporary.now == Whole(encoded)
      ensures failures >= old(failures) && (ok <==> failures == old(failures))
      ensures |old(history)| <= |history| && history[..|old(history)|] == old(history)
      ensures forall k | |old(history)| <= k < |history| :: history[k] == target
    {
      var done, remaining: Bytes := [], encoded;
      while remaining != []
        invariant done + remaining == encoded && target == old(target) && failures == old(failures)
        invariant done != [] ==> temporary.now == Whole(done)
        invariant |old(history)| <= |history| && history[..|old(history)|] == old(history)
        invariant forall k | |old(history)| <= k < |history| :: history[k] == target
        decreases |remaining|
      {
        var written := WriteSome(done, remaining);
        if written <= 0 {
          return false;
        }
        done, remaining := done + remaining[..written], remaining[written..];
      }
      assert done == encoded;
      return true;
    }

    /** The temporary file, written and on disk; the receipt itself is not touched yet. */
    method Prepare(encoded: Bytes) returns (ok: bool)
      requires encoded != [] && temporary.now.Absent?
      modifies this
      ensures target == old(target)
      ensures ok ==> temporary.now == Whole(encoded) && temporary.synced
      ensures failures >= old(failures) && (ok <==> failures == old(failures))
      ensures |old(history)| <= |history| && history[..|old(history)|] == old(history)
      ensures forall k | |old(history)| <= k < |history| :: history[k] == target
    {
      ok := Call(target, Create(temporary));
      if ok {
        ok := WriteAll(encoded);
      }
      if ok {
        ok := Call(target, SyncFile(temporary));
      }
      if ok {
        ok := Call(target, temporary); // close
      }
    }

    /** The temporary file, renamed over the receipt, and the directory on disk. */
    method Publish(encoded: Bytes) returns (ok: bool)
      requires temporary.now == Whole(encoded) && temporary.synced
      modifies this
      ensures ok ==> target.now == Whole(encoded) && target.after == {Whole(encoded)} && temporary.now.Absent?
      ensures failures >= old(failures) && (ok <==> failures == old(failures))
      ensures |old(history)| <= |history| && history[..|old(history)|] == old(history)
      ensures forall k | |old(history)| <= k < |history| :: OldOrNew(old(target), history[k], encoded)
      ensures OldOrNew(old(target), target, encoded)
    {
      var (target', temporary') := Replace(temporary, target);
      ok := Call(target', temporary');
      if ok {
        ok := Call(target, temporary); // chmod
      }
      if ok {
        ok := Call(target, temporary); // open the directory
      }
      if ok {
        ok := Call(SyncName(target), SyncName(temporary));
      }
      if ok {
        ok := Call(target, temporary); // close the directory
      }
    }

    /** `write_receipt`; `safe` is the verdict of its path and permission checks. It refuses exactly
        what is not safe, and otherwise commits exactly when no system call fails. */
    method WriteReceipt(encoded: Bytes, safe: bool) returns (r: Commit)
      requires encoded != [] && temporary.now.Absent?
      modifies this
      ensures r == Refused <==> !safe
      ensures safe ==> (r == Committed <==> failures == old(failures))
      ensures r == Refused ==> target == old(target) && temporary == old(temporary) && history == old(history)
      ensures r == Committed ==> target.now == Whole(encoded) && target.after == {Whole(encoded)}
      ensures r == Committed ==> temporary.now.Absent?
      ensures |old(history)| <= |history| && history[..|old(history)|] == old(history)
      ensures forall k | |old(history)| <= k < |history| :: OldOrNew(old(target), history[k], encoded)
      ensures OldOrNew(old(target), target, encoded)
    {
      if !safe {
        return Refused;
      }
      var ok := Prepare(encoded);
      if ok {
        ok := Publish(encoded);
      }
      Unlink();
      return if ok then Committed else Failed;
    }

    /** Removes the temporary file if it is there; a failure is suppressed. */
    method Unlink()
      modifies this
      ensures target == old(target) && failures == old(failures) && history == old(history) + [target]
      ensures temporary == old(temporary) || temporary == Name(Absent, true, old(temporary).after + {Absent})
    {
      var ok: bool := *;
      if ok {
        temporary := Name(Absent, true, temporary.after + {Absent});
      }
      history := history + [target];
    }
  }
}
