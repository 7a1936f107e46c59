/** `DeepReactivePolicy.save` and `restore` (tfmdp/train/policy.py): the saver is
    created lazily and shared, `save` remembers the path it wrote, and `restore`
    without a path falls back to that remembered path. The session's variable
    values and the checkpoint files are abstract: `P` stands for the policy's
    parameter values, and the disk maps a path to the values saved there. */
module Persistence {
  import opened Wrappers
  import opened Policy

  /** Why `restore` fails: `_checkpoint` was never assigned (no save happened
      and no path was given, Python's `AttributeError`), or nothing was saved at
      the path it reads. */
  datatype RestoreError = NoCheckpoint | MissingCheckpoint(path: string)

  /** What `save` and `restore` read and write. `saversCreated` counts the calls
      of `tf.train.Saver()`; `checkpoint` is `_checkpoint`, absent until the
      first `save`. */
  datatype Store<P> = Store(
    saversCreated: nat,
    checkpoint: Option<string>,
    live: P,
    disk: map<string, P>)

  /** A policy's store right after construction: `_saver = None`, no `_checkpoint`. */
  function Fresh<P>(live: P): Store<P> {
    Store(0, None, live, map[])
  }

  /** Builds the saver on first use and keeps the one already built. */
  function WithSaver<P>(s: Store<P>): (r: Store<P>)
    ensures r.saversCreated == if s.saversCreated == 0 then 1 else s.saversCreated
    ensures r.checkpoint == s.checkpoint && r.live == s.live && r.disk == s.disk
  {
    if s.saversCreated == 0 then s.(saversCreated := 1) else s
  }

  /** `save(sess, save_path)`: the returned path and the store afterwards. The
      write itself always succeeds in this model. */
  function Save<P>(p: DeepReactivePolicy, s: Store<P>, savePath: Option<string>): (r: (string, Store<P>))
    ensures savePath.Some? ==> r.0 == savePath.value
    ensures savePath.None? ==> r.0 == DefaultSavePath(p)
    ensures r.1.checkpoint == Some(r.0)
    ensures r.0 in r.1.disk && r.1.disk[r.0] == s.live
    ensures forall q :: q != r.0 ==> (q in r.1.disk <==> q in s.disk)
    ensures forall q :: q != r.0 && q in s.disk ==> r.1.disk[q] == s.disk[q]
    ensures r.1.live == s.live
    ensures 0 < r.1.saversCreated && (s.saversCreated != 0 ==> r.1.saversCreated == s.saversCreated)
  {
    var path := if savePath.Some? then savePath.value else DefaultSavePath(p);
    var t := WithSaver(s);
    (path, t.(checkpoint := Some(path), disk := t.disk[path := t.live]))
  }

  /** `restore(sess, save_path)`: the store afterwards, and the error if the
      restore failed. The saver is created even when the restore then fails. */
  function Restore<P>(s: Store<P>, savePath: Option<string>): (r: (Store<P>, Option<RestoreError>))
    ensures 0 < r.0.saversCreated && (s.saversCreated != 0 ==> r.0.saversCreated == s.saversCreated)
    ensures r.0.checkpoint == s.checkpoint && r.0.disk == s.disk
    ensures savePath.None? && s.checkpoint.None? ==> r.1 == Some(NoCheckpoint) && r.0.live == s.live
    ensures savePath.Some? || s.checkpoint.Some? ==>
      var path := if savePath.Some? then savePath.value else s.checkpoint.value;
      && (path in s.disk ==> r.1.None? && r.0.live == s.disk[path])
      && (path !in s.disk ==> r.1 == Some(MissingCheckpoint(path)) && r.0.live == s.live)
  {
    var t := WithSaver(s);
    if savePath.None? && t.checkpoint.None? then (t, Some(NoCheckpoint))
    else
      var path := if savePath.Some? then savePath.value else t.checkpoint.value;
      if path in t.disk then (t.(live := t.disk[path]), None)
      else (t, Some(MissingCheckpoint(path)))
  }

  /** One thing that can happen to a policy's store: a `save`, a `restore`
      (whose error, if any, is dropped), or training changing the values in
      the session. */
  datatype Op<P> = SaveOp(path: Option<string>) | RestoreOp(path: Option<string>) | Update(values: P)

  function Apply<P>(p: DeepReactivePolicy, s: Store<P>, op: Op<P>): Store<P> {
    match op
    case SaveOp(path) => Save(p, s, path).1
    case RestoreOp(path) => Restore(s, path).0
    case Update(values) => s.(live := values)
  }

  /** The store after `ops`, applied in order. */
  function Replay<P>(p: DeepReactivePolicy, s: Store<P>, ops: seq<Op<P>>): Store<P>
    decreases |ops|
  {
    if |ops| == 0 then s else Apply(p, Replay(p, s, ops[..|ops| - 1]), ops[|ops| - 1])
  }

  predicate TouchesSaver<P>(op: Op<P>) {
    op.SaveOp? || op.RestoreOp?
  }

  /** The path `_checkpoint` holds after `ops` from a fresh store, read from the
      last `save` backwards: an explicit path, or the default one. */
  function LastSavePath<P>(p: DeepReactivePolicy, ops: seq<Op<P>>): Option<string>
    decreases |ops|
  {
    if |ops| == 0 then None
    else
      match ops[|ops| - 1]
      case SaveOp(path) => Some(if path.Some? then path.value else DefaultSavePath(p))
      case _ => LastSavePath(p, ops[..|ops| - 1])
  }

  lemma {:induction false} ReplayAppend<P>(p: DeepReactivePolicy, s: Store<P>, a: seq<Op<P>>, b: seq<Op<P>>)
    ensures Replay(p, s, a + b) == Replay(p, Replay(p, s, a), b)
    decreases |b|
  {
    if |b| == 0 {
      assert a + b == a;
    } else {
      assert (a + b)[..|a + b| - 1] == a + b[..|b| - 1];
      ReplayAppend(p, s, a, b[..|b| - 1]);
    }
  }

  /** The saver is created once and then shared: from a fresh store, exactly one
      `tf.train.Saver()` has been built once any `save` or `restore` ran, and none
      before. */
  lemma {:induction false} SaverCreatedOnce<P>(p: DeepReactivePolicy, x: P, ops: seq<Op<P>>)
    ensures Replay(p, Fresh(x), ops).saversCreated == if exists i :: 0 <= i < |ops| && TouchesSaver(ops[i]) then 1 else 0
    decreases |ops|
  {
    if |ops| > 0 {
      var init := ops[..|ops| - 1];
      SaverCreatedOnce(p, x, init);
      if exists i :: 0 <= i < |init| && TouchesSaver(init[i]) {
        var i :| 0 <= i < |init| && TouchesSaver(init[i]);
        assert ops[i] == init[i];
      }
      if exists i :: 0 <= i < |ops| && TouchesSaver(ops[i]) {
        var i :| 0 <= i < |ops| && TouchesSaver(ops[i]);
        if i < |init| {
          assert init[i] == ops[i];
        }
      }
    }
  }

  /** `_checkpoint` is the path of the most recent `save`, and absent before the first. */
  lemma {:induction false} CheckpointIsLastSave<P>(p: DeepReactivePolicy, x: P, ops: seq<Op<P>>)
    ensures Replay(p, Fresh(x), ops).checkpoint == LastSavePath(p, ops)
    decreases |ops|
  {
    if |ops| > 0 {
      CheckpointIsLastSave(p, x, ops[..|ops| - 1]);
    }
  }

  /** `LastSavePath` is absent exactly when no `save` happened. */
  lemma {:induction false} NoSaveNoPath<P>(p: DeepReactivePolicy, ops: seq<Op<P>>)
    ensures LastSavePath(p, ops).None? <==> forall i :: 0 <= i < |ops| ==> !ops[i].SaveOp?
    decreases |ops|
  {
    if |ops| > 0 {
      var init := ops[..|ops| - 1];
      NoSaveNoPath(p, init);
      if ops[|ops| - 1].SaveOp? {
      } else {
        assert forall i :: 0 <= i < |init| ==> init[i] == ops[i];
      }
    }
  }

  /** `restore` without a path before any `save` fails: `_checkpoint` is unset. */
  lemma RestoreBeforeSaveFails<P>(p: DeepReactivePolicy, x: P, ops: seq<Op<P>>)
    requires forall i :: 0 <= i < |ops| ==> !ops[i].SaveOp?
    ensures Restore(Replay(p, Fresh(x), ops), None).1 == Some(NoCheckpoint)
  {
    CheckpointIsLastSave(p, x, ops);
    NoSaveNoPath(p, ops);
  }

  /** Whatever happens after a `save` other than another `save` (training
      updates, restores), `restore` without a path brings back the values that
      `save` wrote. */
  lemma RestoreRecoversLastSave<P>(p: DeepReactivePolicy, s: Store<P>, path: Option<string>, later: seq<Op<P>>)
    requires forall i :: 0 <= i < |later| ==> !later[i].SaveOp?
    ensures var saved := Save(p, s, path);
      var r := Restore(Replay(p, saved.1, later), None);
      r.1.None? && r.0.live == s.live
  {
    var saved := Save(p, s, path);
    LaterKeepsCheckpoint(p, saved.1, later);
  }

  /** The same round trip inside any trace from a fresh policy: after some
      history, a `save`, and then anything but another `save`, `restore` without
      a path brings back the values the policy had when it was saved. */
  lemma RestoreRecoversInTrace<P>(p: DeepReactivePolicy, x: P, before: seq<Op<P>>, path: Option<string>, later: seq<Op<P>>)
    requires forall i :: 0 <= i < |later| ==> !later[i].SaveOp?
    ensures var r := Restore(Replay(p, Fresh(x), before + [SaveOp(path)] + later), None);
      r.1.None? && r.0.live == Replay(p, Fresh(x), before).live
  {
    var upTo := before + [SaveOp(path)];
    assert upTo[..|upTo| - 1] == before;
    assert Replay(p, Fresh(x), upTo) == Save(p, Replay(p, Fresh(x), before), path).1;
    ReplayAppend(p, Fresh(x), upTo, later);
    RestoreRecoversLastSave(p, Replay(p, Fresh(x), before), path, later);
  }

  /** Steps without a `save` leave `_checkpoint` and the disk alone. */
  lemma {:induction false} LaterKeepsCheckpoint<P>(p: DeepReactivePolicy, s: Store<P>, later: seq<Op<P>>)
    requires forall i :: 0 <= i < |later| ==> !later[i].SaveOp?
    ensures Replay(p, s, later).checkpoint == s.checkpoint
    ensures Replay(p, s, later).disk == s.disk
    decreases |later|
  {
    if |later| > 0 {
      LaterKeepsCheckpoint(p, s, later[..|later| - 1]);
    }
  }
}
