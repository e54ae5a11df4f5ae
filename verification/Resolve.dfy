/**
 * The resolver: deduplication, lineage memo, deletion cascade, the walk with its visited set, and
 * application with the overlay pass interleaved. Every loop takes its next element in an arbitrary
 * order, and the result is the one resolution the specification names.
 */
module Resolve {
  import opened Prelude
  import opened Ordering
  import opened Events
  import opened PatchTypes
  import opened ChainWalk
  import opened ResolveSpec
  import L = Lineage

  /** `d` may retract `id`: same author, and not a deletion of a deletion. */
  predicate MayRetract(byId: Observed, d: Event, id: Id) {
    id in byId && !IsDeletion(byId[id]) && byId[id].pubkey == d.pubkey
  }

  lemma DeletedBySome(byId: Observed, deletions: set<Event>, id: Id)
    requires Keyed(byId)
    requires deletions == set id | id in byId && IsDeletion(byId[id]) :: byId[id]
    ensures Deleted(byId, id) <==> exists d :: d in deletions && MayRetract(byId, d, id) && id in RefIds(d)
  {
    if Deleted(byId, id) {
      var d :| d in byId && IsDeletion(byId[d]) && byId[d].pubkey == byId[id].pubkey && id in RefIds(byId[d]);
      assert byId[d] in deletions && MayRetract(byId, byId[d], id);
    }
    if d :| d in deletions && MayRetract(byId, d, id) && id in RefIds(d) {
      assert d.id in byId && byId[d.id] == d;
    }
  }

  method HonouredDeletions(deletions: set<Event>, byId: Observed) returns (deleted: set<Id>)
    requires Keyed(byId)
    requires deletions == set id | id in byId && IsDeletion(byId[id]) :: byId[id]
    ensures deleted == DeletedIds(byId)
  {
    hide IsDeletion;
    deleted := {};
    var todo := deletions;
    while todo != {}
      invariant todo <= deletions
      invariant forall id :: id in deleted <==> exists d :: d in deletions - todo && MayRetract(byId, d, id) && id in RefIds(d)
      decreases |todo|
    {
      var deletion := Pick(todo);
      var refs := deletion.refs;
      ghost var before := deleted;
      for i := 0 to |refs|
        invariant forall id :: id in deleted <==>
                               id in before || (MayRetract(byId, deletion, id) && exists j :: 0 <= j < i && refs[j].id == id)
      {
        var ref := refs[i];
        if ref.id !in byId { continue; }
        if IsDeletion(byId[ref.id]) { continue; }
        if byId[ref.id].pubkey != deletion.pubkey { continue; }
        deleted := deleted + {ref.id};
      }
      assert forall id :: id in RefIds(deletion) <==> exists j :: 0 <= j < |refs| && refs[j].id == id;
      hide MayRetract, RefIds;
      assert forall d :: d in deletions - (todo - {deletion}) <==> d in deletions - todo || d == deletion;
      todo := todo - {deletion};
    }
    assert deletions - todo == deletions;
    forall id ensures id in deleted <==> id in DeletedIds(byId) {
      DeletedBySome(byId, deletions, id);
    }
  }

  /** The root author's patches whose lineage reaches the root. */
  ghost function Linkable(obs: Observed, rootId: Id): set<Event>
    requires rootId in obs
  {
    set p | p in PatchesOf(obs, rootId) && p.pubkey == obs[rootId].pubkey
            && L.ClassOf(obs, rootId, obs[rootId].pubkey, p) == L.Chain
  }

  /** From a position outside the cascade, the linkable patches left are the line's own replies. */
  lemma SameReplies(obs: Observed, rootId: Id, full: set<Id>, removed: set<Id>, surviving: set<Event>, position: Id)
    requires Keyed(obs) && Patchable(obs, rootId)
    requires IsCascade(Linkable(obs, rootId), DeletedIds(obs), full) && removed <= full
    requires forall p :: p in Linkable(obs, rootId) && p.id in DeletedIds(obs) ==> p.id in removed
    requires surviving == set p | p in Linkable(obs, rootId) && p.id !in removed
    requires position == rootId || (position in IdsOf(surviving) && position !in full)
    ensures Kids(surviving, position) == Kids(Line(obs, rootId), position)
    ensures forall p :: p in Kids(surviving, position) ==> p.id !in full
  {
    PatchesKeyed(obs, rootId);
    hide ReplyTarget, L.ClassOf, IsPatchFor;
    var author := obs[rootId].pubkey;
    assert IdDetermines(Linkable(obs, rootId)) && position !in full;
    forall p ensures p in Kids(surviving, position) <==> p in Kids(Line(obs, rootId), position)
             ensures p in Kids(surviving, position) ==> p.id !in full
    {
      if p in Kids(surviving, position) {
        assert p.id !in DeletedIds(obs);
        if p.id in full { RemovedHasCause(Linkable(obs, rootId), DeletedIds(obs), full, p); }
      }
      if p in Kids(Line(obs, rootId), position) {
        L.ClassStep(obs, rootId, author, p);
        if position != rootId {
          assert L.HopFrom(obs, rootId, author, p) == L.Via(obs[position]);
        }
        assert p in Linkable(obs, rootId);
        if p.id in full { RemovedHasCause(Linkable(obs, rootId), DeletedIds(obs), full, p); }
      }
    }
  }

  lemma {:induction false} SameRepliesOnPath(obs: Observed, rootId: Id, full: set<Id>, removed: set<Id>, surviving: set<Event>,
                                             path: seq<Event>, fork: set<Event>, i: nat)
    requires Keyed(obs) && Patchable(obs, rootId)
    requires IsCascade(Linkable(obs, rootId), DeletedIds(obs), full) && removed <= full
    requires forall p :: p in Linkable(obs, rootId) && p.id in DeletedIds(obs) ==> p.id in removed
    requires surviving == set p | p in Linkable(obs, rootId) && p.id !in removed
    requires Canonical(surviving, rootId, path, fork) && i <= |path|
    ensures Kids(surviving, Position(rootId, path, i)) == Kids(Line(obs, rootId), Position(rootId, path, i))
    ensures forall p :: p in Kids(surviving, Position(rootId, path, i)) ==> p.id !in full
    decreases i
  {
    hide ReplyTarget, IsCascade, Linkable, Line;
    if i > 0 {
      SameRepliesOnPath(obs, rootId, full, removed, surviving, path, fork, i - 1);
      assert path[i - 1] in Kids(surviving, Position(rootId, path, i - 1));
      assert path[i - 1] in surviving;
    }
    hide Kids, Canonical;
    SameReplies(obs, rootId, full, removed, surviving, Position(rootId, path, i));
  }

  /**
   * Eligibility and the cascade only leave out patches the walk could not reach anyway: walking
   * what any removal between first-order deletion and the full cascade leaves of the linkable
   * patches is walking the line itself.
   */
  lemma WalkIgnoresCascade(obs: Observed, rootId: Id, full: set<Id>, removed: set<Id>, surviving: set<Event>,
                           path: seq<Event>, fork: set<Event>)
    requires Keyed(obs) && Patchable(obs, rootId)
    requires IsCascade(Linkable(obs, rootId), DeletedIds(obs), full) && removed <= full
    requires forall p :: p in Linkable(obs, rootId) && p.id in DeletedIds(obs) ==> p.id in removed
    requires surviving == set p | p in Linkable(obs, rootId) && p.id !in removed
    requires Canonical(surviving, rootId, path, fork)
    ensures WalkOf(obs, rootId) == (path, fork)
  {
    hide IsCascade, Kids, Linkable, Line, ReplyTarget;
    forall i: nat | i <= |path|
      ensures Kids(surviving, Position(rootId, path, i)) == Kids(Line(obs, rootId), Position(rootId, path, i))
    {
      SameRepliesOnPath(obs, rootId, full, removed, surviving, path, fork, i);
    }
    var walk := WalkOf(obs, rootId);
    CanonicalUnique(Line(obs, rootId), rootId, path, fork, walk.0, walk.1);
  }

  // ---------------------------------------------------------------- application and overlays

  /** What the overlay pass has recorded once the positions of `contents` are live. */
  ghost predicate PassDone(apply: Applier, rootId: Id, path: seq<Event>, contents: seq<string>, overlays: set<Event>,
                           applies: map<Id, bool>, annotations: seq<Annotation>)
    requires |contents| <= |path| + 1
    requires forall o :: o in overlays ==> ReplyTarget(o).Some?
  {
    && (forall o :: o in overlays ==>
          var trial := TrialOf(apply, rootId, path, contents, o);
          && (o.id in applies <==> trial.Tried? && !trial.result.Limit?)
          && (o.id in applies ==> applies[o.id] == !trial.result.Halt?))
    && Elems(annotations) == LimitAnnotations(apply, rootId, path, contents, overlays)
    && Distinct(annotations)
  }

  lemma TrialAt(apply: Applier, line: set<Event>, rootId: Id, path: seq<Event>, contents: seq<string>, o: Event, i: nat)
    requires WalkedTo(line, rootId, path) && i < |contents| <= |path| + 1
    requires ReplyTarget(o) == Some(Position(rootId, path, i))
    ensures TrialOf(apply, rootId, path, contents, o) == Tried(apply(contents[i], o.content))
  {
    hide ReplyTarget, Kids;
    forall j: nat | j < |contents| && j != i ensures Position(rootId, path, j) != Position(rootId, path, i) {
      if j < i { PositionsDiffer(line, rootId, path, j, i); } else { PositionsDiffer(line, rootId, path, i, j); }
    }
  }

  /** A newly live position settles the overlays that target it and no others. */
  lemma TrialGrows(apply: Applier, line: set<Event>, rootId: Id, path: seq<Event>, contents: seq<string>, c: string, o: Event)
    requires WalkedTo(line, rootId, path) && |contents| <= |path| && ReplyTarget(o).Some?
    ensures ReplyTarget(o).value == Position(rootId, path, |contents|) ==>
              && TrialOf(apply, rootId, path, contents, o) == NoPosition
              && TrialOf(apply, rootId, path, contents + [c], o) == Tried(apply(c, o.content))
    ensures ReplyTarget(o).value != Position(rootId, path, |contents|) ==>
              TrialOf(apply, rootId, path, contents + [c], o) == TrialOf(apply, rootId, path, contents, o)
  {
    hide ReplyTarget, WalkedTo;
    var n := |contents|;
    if ReplyTarget(o).value == Position(rootId, path, n) {
      TrialAt(apply, line, rootId, path, contents + [c], o, n);
      forall j: nat | j < n ensures Position(rootId, path, j) != Position(rootId, path, n) {
        PositionsDiffer(line, rootId, path, j, n);
      }
    } else if j: nat :| j < n && Position(rootId, path, j) == ReplyTarget(o).value {
      TrialAt(apply, line, rootId, path, contents, o, j);
      TrialAt(apply, line, rootId, path, contents + [c], o, j);
    } else {
      assert forall j: nat :: j < n + 1 ==> Position(rootId, path, j) != ReplyTarget(o).value;
    }
  }

  /** `applies` is `known` with the verdict of every overlay in `bucket` that hit no limit. */
  ghost predicate Judged(apply: Applier, content: string, bucket: set<Event>, known: map<Id, bool>, applies: map<Id, bool>) {
    && (forall id :: id in known ==> id in applies && applies[id] == known[id])
    && (forall id :: id in applies ==> id in known || exists o :: o in bucket && o.id == id && !apply(content, o.content).Limit?)
    && (forall o :: o in bucket && !apply(content, o.content).Limit? ==>
          o.id in applies && applies[o.id] == !apply(content, o.content).Halt?)
  }

  ghost function LimitsIn(apply: Applier, content: string, bucket: set<Event>): set<Annotation> {
    set o | o in bucket && apply(content, o.content).Limit? :: ResourceLimit(o.id, o.pubkey)
  }

  lemma JudgedOneMore(apply: Applier, content: string, all: set<Event>, bucket: set<Event>, known: map<Id, bool>, applies: map<Id, bool>, o: Event)
    requires Judged(apply, content, bucket, known, applies) && o.id !in known
    requires IdDetermines(all) && bucket + {o} <= all
    ensures apply(content, o.content).Limit? ==> Judged(apply, content, bucket + {o}, known, applies)
    ensures !apply(content, o.content).Limit? ==>
              Judged(apply, content, bucket + {o}, known, applies[o.id := !apply(content, o.content).Halt?])
  {
    assert forall q :: q in bucket && q.id == o.id ==> q == o;
    hide IdDetermines;
  }

  lemma LimitsOneMore(apply: Applier, content: string, all: set<Event>, bucket: set<Event>, o: Event)
    requires IdDetermines(all) && bucket + {o} <= all && o !in bucket
    ensures ResourceLimit(o.id, o.pubkey) !in LimitsIn(apply, content, bucket)
    ensures LimitsIn(apply, content, bucket + {o}) == LimitsIn(apply, content, bucket)
              + if apply(content, o.content).Limit? then {ResourceLimit(o.id, o.pubkey)} else {}
  {
    assert forall q :: q in bucket ==> q.id != o.id;
    hide IdDetermines;
  }

  lemma DistinctAppend<T>(xs: seq<T>, x: T)
    requires Distinct(xs) && x !in xs
    ensures Distinct(xs + [x])
  {
  }

  method ClassifyOne(apply: Applier, ghost bucket: set<Event>, content: string, ghost known: map<Id, bool>,
                     ghost reported: seq<Annotation>, ghost done: set<Event>, overlay: Event,
                     applies0: map<Id, bool>, annotations0: seq<Annotation>)
    returns (applies: map<Id, bool>, annotations: seq<Annotation>)
    requires IdDetermines(bucket) && done + {overlay} <= bucket && overlay !in done
    requires overlay.id !in known && ResourceLimit(overlay.id, overlay.pubkey) !in reported
    requires Judged(apply, content, done, known, applies0) && Distinct(annotations0)
    requires Elems(annotations0) == Elems(reported) + LimitsIn(apply, content, done)
    ensures Judged(apply, content, done + {overlay}, known, applies) && Distinct(annotations)
    ensures Elems(annotations) == Elems(reported) + LimitsIn(apply, content, done + {overlay})
  {
    hide Judged, LimitsIn, Distinct, IdDetermines;
    JudgedOneMore(apply, content, bucket, done, known, applies0, overlay);
    LimitsOneMore(apply, content, bucket, done, overlay);
    applies, annotations := applies0, annotations0;
    var result := apply(content, overlay.content);
    if result.Limit? {
      var report := ResourceLimit(overlay.id, overlay.pubkey);
      assert report !in Elems(annotations);
      ElemsAppend(annotations, report);
      DistinctAppend(annotations, report);
      annotations := annotations + [report];
    } else {
      applies := applies[overlay.id := !result.Halt?];
    }
  }

  /** Tries every overlay of one position against the content there. */
  method ClassifyAgainst(apply: Applier, bucket: set<Event>, content: string, known: map<Id, bool>, reported: seq<Annotation>)
    returns (applies: map<Id, bool>, annotations: seq<Annotation>)
    requires IdDetermines(bucket) && Distinct(reported)
    requires forall o :: o in bucket ==> o.id !in known && ResourceLimit(o.id, o.pubkey) !in reported
    ensures Judged(apply, content, bucket, known, applies)
    ensures Distinct(annotations)
    ensures Elems(annotations) == Elems(reported) + LimitsIn(apply, content, bucket)
  {
    applies, annotations := known, reported;
    var todo := bucket;
    ghost var done: set<Event> := {};
    while todo != {}
      invariant done <= bucket && todo == bucket - done
      invariant Judged(apply, content, done, known, applies)
      invariant Distinct(annotations)
      invariant Elems(annotations) == Elems(reported) + LimitsIn(apply, content, done)
      decreases |todo|
    {
      var overlay := Pick(todo);
      applies, annotations := ClassifyOne(apply, bucket, content, known, reported, done, overlay, applies, annotations);
      todo, done := todo - {overlay}, done + {overlay};
    }
    assert done == bucket;
  }

  /** A position going live carries the overlay pass one content further. */
  lemma PassGrows(apply: Applier, line: set<Event>, rootId: Id, path: seq<Event>, contents: seq<string>, c: string, overlays: set<Event>,
                  known: map<Id, bool>, reported: seq<Annotation>, applies: map<Id, bool>, annotations: seq<Annotation>)
    requires WalkedTo(line, rootId, path) && |contents| <= |path|
    requires IdDetermines(overlays) && forall o :: o in overlays ==> ReplyTarget(o).Some?
    requires PassDone(apply, rootId, path, contents, overlays, known, reported)
    requires forall id :: id in known ==> id in IdsOf(overlays)
    requires Judged(apply, c, Kids(overlays, Position(rootId, path, |contents|)), known, applies)
    requires Distinct(annotations)
    requires Elems(annotations) == Elems(reported) + LimitsIn(apply, c, Kids(overlays, Position(rootId, path, |contents|)))
    ensures PassDone(apply, rootId, path, contents + [c], overlays, applies, annotations)
    ensures forall id :: id in applies ==> id in IdsOf(overlays)
  {
    var here := Kids(overlays, Position(rootId, path, |contents|));
    forall o | o in overlays
      ensures o in here ==> TrialOf(apply, rootId, path, contents, o) == NoPosition
                            && TrialOf(apply, rootId, path, contents + [c], o) == Tried(apply(c, o.content))
      ensures o !in here ==> TrialOf(apply, rootId, path, contents + [c], o) == TrialOf(apply, rootId, path, contents, o)
    {
      TrialGrows(apply, line, rootId, path, contents, c, o);
    }
    hide ReplyTarget, TrialOf, WalkedTo;
  }

  /** Applying the chain, with the overlays of each position tried the moment it is live. */
  method ApplyChain(apply: Applier, rootId: Id, rootContent: string, path: seq<Event>,
                    overlaysByTarget: map<Id, set<Event>>, ghost line: set<Event>, ghost overlays: set<Event>)
    returns (content: string, applied: seq<Id>, stop: Stop, applies: map<Id, bool>, annotations: seq<Annotation>)
    requires WalkedTo(line, rootId, path) && IdDetermines(overlays)
    requires forall o :: o in overlays ==> ReplyTarget(o).Some?
    requires Buckets(overlaysByTarget, overlays)
    ensures var run := Advance(apply, rootContent, path);
            && stop == run.stop && |applied| == |run.contents| - 1
            && content == run.contents[|applied|]
            && applied == IdSeq(path[..|applied|])
            && PassDone(apply, rootId, path, run.contents, overlays, applies, annotations)
  {
    content, applied, stop, applies, annotations := rootContent, [], Completed, map[], [];
    ghost var contents: seq<string> := [];
    NothingTried(apply, rootId, path, overlays);
    hide PassDone, WalkedTo, Advance, Buckets, IdDetermines, Kids, ReplyTarget, InProgress, IdSeq;
    applies, annotations := Settle(apply, line, rootId, path, contents, rootId, content, overlaysByTarget, overlays, applies, annotations);
    contents := contents + [content];
    ProgressStarts(apply, rootContent, path);
    for i := 0 to |path|
      invariant |contents| == i + 1 && stop == Completed
      invariant InProgress(apply, rootContent, path, i, contents, content, applied)
      invariant PassDone(apply, rootId, path, contents, overlays, applies, annotations)
      invariant forall id :: id in applies ==> id in IdsOf(overlays)
    {
      var patch := path[i];
      var result := apply(content, patch.content);
      ProgressStep(apply, rootContent, path, i, contents, content, applied);
      if result.Halt? {
        stop := HaltedAt(patch, result.reason);
        return;
      }
      if result.Limit? {
        stop := AbortedAt(patch, result.limit);
        return;
      }
      content := result.content;
      applied := applied + [patch.id];
      applies, annotations := Settle(apply, line, rootId, path, contents, patch.id, content, overlaysByTarget, overlays, applies, annotations);
      contents := contents + [content];
    }
    ProgressEnds(apply, rootContent, path, contents, content, applied);
  }

  /** The first `i` patches are applied and `content` is where they lead. */
  ghost predicate InProgress(apply: Applier, rootContent: string, path: seq<Event>, i: nat, contents: seq<string>, content: string, applied: seq<Id>) {
    && i <= |path| && |contents| == i + 1 && contents[i] == content
    && |applied| == i && applied == IdSeq(path[..i])
    && Advance(apply, rootContent, path) == Join(contents[..i], Advance(apply, content, path[i..]))
  }

  lemma ProgressStarts(apply: Applier, rootContent: string, path: seq<Event>)
    ensures InProgress(apply, rootContent, path, 0, [rootContent], rootContent, [])
  {
    assert path[0..] == path;
  }

  lemma ProgressStep(apply: Applier, rootContent: string, path: seq<Event>, i: nat, contents: seq<string>, content: string, applied: seq<Id>)
    requires i < |path| && InProgress(apply, rootContent, path, i, contents, content, applied)
    ensures |applied| == i && contents[i] == content && applied == IdSeq(path[..i])
    ensures match apply(content, path[i].content)
            case Halt(reason, _) => Advance(apply, rootContent, path) == Run(contents, HaltedAt(path[i], reason))
            case Limit(limit, _, _) => Advance(apply, rootContent, path) == Run(contents, AbortedAt(path[i], limit))
            case Applied(next, _, _) => InProgress(apply, rootContent, path, i + 1, contents + [next], next, applied + [path[i].id])
            case Noop(next, _) => InProgress(apply, rootContent, path, i + 1, contents + [next], next, applied + [path[i].id])
  {
    AdvanceOne(apply, content, path, i);
    assert contents == contents[..i] + [content];
    hide Advance, InProgress;
    match apply(content, path[i].content)
    case Halt(_, _) =>
    case Limit(_, _, _) =>
    case Applied(next, _, _) => ProgressNext(apply, rootContent, path, i, contents, content, applied, next);
    case Noop(next, _) => ProgressNext(apply, rootContent, path, i, contents, content, applied, next);
  }

  lemma ProgressNext(apply: Applier, rootContent: string, path: seq<Event>, i: nat, contents: seq<string>, content: string, applied: seq<Id>, next: string)
    requires i < |path| && InProgress(apply, rootContent, path, i, contents, content, applied)
    requires Advance(apply, content, path[i..]) == Join([content], Advance(apply, next, path[i + 1..]))
    ensures InProgress(apply, rootContent, path, i + 1, contents + [next], next, applied + [path[i].id])
  {
    hide Advance;
    assert path[..i + 1] == path[..i] + [path[i]];
    assert (contents + [next])[..i + 1] == contents == contents[..i] + [content];
    assert IdSeq(path[..i + 1]) == IdSeq(path[..i]) + [path[i].id];
  }

  lemma ProgressEnds(apply: Applier, rootContent: string, path: seq<Event>, contents: seq<string>, content: string, applied: seq<Id>)
    requires InProgress(apply, rootContent, path, |path|, contents, content, applied)
    ensures |applied| == |path| && contents[|path|] == content && applied == IdSeq(path[..|path|])
    ensures Advance(apply, rootContent, path) == Run(contents, Completed)
  {
    assert contents == contents[..|path|] + [content];
  }

  /** A run with earlier contents put in front. */
  ghost function Join(before: seq<string>, run: Run): Run {
    Run(before + run.contents, run.stop)
  }

  lemma AdvanceOne(apply: Applier, content: string, path: seq<Event>, i: nat)
    requires i < |path|
    ensures var run := Advance(apply, content, path[i..]);
            match apply(content, path[i].content)
            case Halt(reason, _) => run == Run([content], HaltedAt(path[i], reason))
            case Limit(limit, _, _) => run == Run([content], AbortedAt(path[i], limit))
            case Applied(next, _, _) => run == Join([content], Advance(apply, next, path[i + 1..]))
            case Noop(next, _) => run == Join([content], Advance(apply, next, path[i + 1..]))
  {
    assert path[i..][1..] == path[i + 1..];
  }

  lemma NothingTried(apply: Applier, rootId: Id, path: seq<Event>, overlays: set<Event>)
    requires forall o :: o in overlays ==> ReplyTarget(o).Some?
    ensures PassDone(apply, rootId, path, [], overlays, map[], [])
  {
    hide ReplyTarget;
  }

  /** No overlay of a new position has been judged or reported before. */
  lemma BucketIsNew(apply: Applier, line: set<Event>, rootId: Id, path: seq<Event>, contents: seq<string>, c: string,
                    overlays: set<Event>, known: map<Id, bool>, reported: seq<Annotation>)
    requires WalkedTo(line, rootId, path) && IdDetermines(overlays) && |contents| <= |path|
    requires forall o :: o in overlays ==> ReplyTarget(o).Some?
    requires PassDone(apply, rootId, path, contents, overlays, known, reported)
    ensures forall o :: o in Kids(overlays, Position(rootId, path, |contents|)) ==>
              o.id !in known && ResourceLimit(o.id, o.pubkey) !in reported
  {
    var here := Kids(overlays, Position(rootId, path, |contents|));
    forall o | o in here ensures TrialOf(apply, rootId, path, contents, o) == NoPosition {
      TrialGrows(apply, line, rootId, path, contents, c, o);
    }
    hide ReplyTarget, TrialOf, WalkedTo;
    forall o | o in here ensures ResourceLimit(o.id, o.pubkey) !in Elems(reported) {
      assert forall q :: q in overlays && q.id == o.id ==> q == o;
    }
  }

  /** The overlays of the position that has just become live. */
  method Settle(apply: Applier, ghost line: set<Event>, ghost rootId: Id, ghost path: seq<Event>, ghost contents: seq<string>,
                position: Id, content: string,
                overlaysByTarget: map<Id, set<Event>>, ghost overlays: set<Event>, known: map<Id, bool>, reported: seq<Annotation>)
    returns (applies: map<Id, bool>, annotations: seq<Annotation>)
    requires WalkedTo(line, rootId, path) && IdDetermines(overlays) && |contents| <= |path|
    requires position == Position(rootId, path, |contents|)
    requires forall o :: o in overlays ==> ReplyTarget(o).Some?
    requires Buckets(overlaysByTarget, overlays)
    requires PassDone(apply, rootId, path, contents, overlays, known, reported)
    requires forall id :: id in known ==> id in IdsOf(overlays)
    ensures PassDone(apply, rootId, path, contents + [content], overlays, applies, annotations)
    ensures forall id :: id in applies ==> id in IdsOf(overlays)
  {
    var bucket := Bucket(overlaysByTarget, position);
    assert bucket == Kids(overlays, position);
    BucketIsNew(apply, line, rootId, path, contents, content, overlays, known, reported);
    assert IdDetermines(bucket);
    applies, annotations := ClassifyAgainst(apply, bucket, content, known, reported);
    PassGrows(apply, line, rootId, path, contents, content, overlays, known, reported, applies, annotations);
  }

  // ---------------------------------------------------------------- the resolver

  function OverlayStateFor(overlayId: Id, targetId: Id, definedPositions: set<Id>, byId: Observed,
                           applies: map<Id, bool>, tipId: Option<Id>): OverlayState
  {
    if targetId !in definedPositions then Orphaned(if targetId in byId then Alpha else Beta)
    else if overlayId !in applies then Unclassified
    else if !applies[overlayId] then Conflict
    else if tipId == Some(targetId) then Clean
    else Stale
  }

  /** The ids with a content are the positions reached. */
  lemma ReachedIff(rootId: Id, path: seq<Event>, reached: nat, defined: set<Id>, target: Id)
    requires 1 <= reached <= |path| + 1 && defined == {rootId} + Elems(IdSeq(path[..reached - 1]))
    ensures target in defined <==> exists i: nat :: i < reached && Position(rootId, path, i) == target
  {
    var ids := IdSeq(path[..reached - 1]);
    assert Position(rootId, path, 0) == rootId;
    if k :| 0 <= k < |ids| && ids[k] == target { assert Position(rootId, path, k + 1) == target; }
    if i: nat :| i < reached && Position(rootId, path, i) == target && i > 0 { assert ids[i - 1] in Elems(ids); }
  }

  /** The state read off the recorded verdicts is the state the trial means. */
  lemma OverlayStateRight(apply: Applier, obs: Observed, line: set<Event>, rootId: Id, path: seq<Event>, contents: seq<string>, overlays: set<Event>,
                          applies: map<Id, bool>, annotations: seq<Annotation>, defined: set<Id>, tip: Option<Id>, o: Event)
    requires WalkedTo(line, rootId, path) && 1 <= |contents| <= |path| + 1
    requires forall o :: o in overlays ==> ReplyTarget(o).Some?
    requires PassDone(apply, rootId, path, contents, overlays, applies, annotations)
    requires defined == {rootId} + Elems(IdSeq(path[..|contents| - 1]))
    requires o in overlays
    ensures var target := ReplyTarget(o).value;
            OverlayStateFor(o.id, target, defined, obs, applies, tip)
            == StateOf(TrialOf(apply, rootId, path, contents, o), target in obs, tip == Some(target))
  {
    ReachedIff(rootId, path, |contents|, defined, ReplyTarget(o).value);
    hide ReplyTarget, Position, IdSeq, WalkedTo;
  }

  /** Splits the observed events into the patches of `rootId` and the deletions. */
  method Partition(byId: Observed, rootId: Id) returns (patches: set<Event>, deletions: set<Event>)
    ensures patches == PatchesOf(byId, rootId)
    ensures deletions == set id | id in byId && IsDeletion(byId[id]) :: byId[id]
  {
    hide TypeOf, RootTarget;
    patches, deletions := {}, {};
    var todo: set<Id> := byId.Keys;
    ghost var done: set<Id> := {};
    while todo != {}
      invariant todo == byId.Keys - done && done <= byId.Keys
      invariant patches == set id | id in done && IsPatchFor(byId[id], rootId) :: byId[id]
      invariant deletions == set id | id in done && IsDeletion(byId[id]) :: byId[id]
      decreases |todo|
    {
      var id := Pick(todo);
      var event := byId[id];
      if IsDeletion(event) {
        deletions := deletions + {event};
      } else if TypeOf(event) == Some(Patch) && RootTarget(event) == Some(rootId) {
        patches := patches + {event};
      }
      todo, done := todo - {id}, done + {id};
    }
    assert done == byId.Keys;
  }

  /** The classes sort the root author's patches into the linkable and the held ones. */
  lemma Classified(byId: Observed, rootId: Id, rootAuthored: set<Event>, deleted: set<Id>, classes: map<Id, L.Class>,
                   linkable: set<Event>, held: set<Event>)
    requires Keyed(byId) && Patchable(byId, rootId) && deleted == DeletedIds(byId)
    requires rootAuthored == set p | p in PatchesOf(byId, rootId) && p.pubkey == byId[rootId].pubkey
    requires forall p :: p in rootAuthored ==> p.id in classes && classes[p.id] == L.ClassOf(byId, rootId, byId[rootId].pubkey, p)
    requires linkable == set p | p in rootAuthored && classes[p.id] == L.Chain
    requires held == set p | p in rootAuthored && classes[p.id] == L.Held && p.id !in deleted
    ensures linkable == Linkable(byId, rootId) && held == HeldPatches(byId, rootId)
  {
    PatchesKeyed(byId, rootId);
    hide PatchesOf, L.ClassOf, Deleted;
    forall p ensures p in linkable <==> p in Linkable(byId, rootId) {}
    SameElements(linkable, Linkable(byId, rootId));
    forall p ensures p in held <==> p in HeldPatches(byId, rootId) {}
    SameElements(held, HeldPatches(byId, rootId));
  }

  /** The canonical walk: classify, cascade, bucket by parent, and follow single replies from the root. */
  method FollowChain(byId: Observed, rootId: Id, rootAuthored: set<Event>, deleted: set<Id>)
    returns (path: seq<Event>, fork: set<Event>, held: set<Event>)
    requires Keyed(byId) && Patchable(byId, rootId)
    requires rootAuthored == set p | p in PatchesOf(byId, rootId) && p.pubkey == byId[rootId].pubkey
    requires deleted == DeletedIds(byId)
    ensures (path, fork) == WalkOf(byId, rootId)
    ensures held == HeldPatches(byId, rootId)
  {
    PatchesKeyed(byId, rootId);
    hide TypeOf, RootTarget, ReplyTarget, L.ClassOf, IsPatchFor;
    ghost var author := byId[rootId].pubkey;
    var classifier := new L.Classifier(byId, rootId, byId[rootId].pubkey);
    classifier.ClassifyAll(rootAuthored);
    var linkable := set p | p in rootAuthored && classifier.eligibility[p.id] == L.Chain;
    held := set p | p in rootAuthored && classifier.eligibility[p.id] == L.Held && p.id !in deleted;
    Classified(byId, rootId, rootAuthored, deleted, classifier.eligibility, linkable, held);
    hide PatchesOf, Deleted;
    var removed := Cascade(linkable, deleted);
    var surviving := set p | p in linkable && p.id !in removed;
    var children := ByReplyTarget(surviving);
    assert rootId !in IdsOf(surviving);
    path, fork := Walk(children, surviving, rootId);
    WalkIgnoresCascade(byId, rootId, removed, removed, surviving, path, fork);
  }

  /** The order of the event array, and repetitions in it, do not matter. */
  method Resolve(apply: Applier, rootId: Id, events: seq<Event>) returns (res: Resolution)
    ensures Keyed(ById(events)) && res == ResolveOf(apply, ById(events), rootId)
  {
    var byId := DedupeById(events);
    ByIdKeepsFirst(events, rootId);
    var patches, deletions := Partition(byId, rootId);
    if rootId !in byId {
      var pending := SortSet(set p | p in patches :: p.id, IdKey);
      return Resolution(Absent(RootUnobserved), [], pending, []);
    }
    var root := byId[rootId];
    if !IsRoot(root) {
      return Resolution(Absent(RootNotPatchable), [], [], []);
    }
    var deleted := HonouredDeletions(deletions, byId);
    var rootAuthored := set p | p in patches && p.pubkey == root.pubkey;
    var foreign := set p | p in patches && p.pubkey != root.pubkey;
    var path, fork, held := FollowChain(byId, rootId, rootAuthored, deleted);
    var overlays := set o | o in foreign && o.id !in deleted && ReplyTarget(o).Some?;
    assert overlays == OverlayEvents(byId, rootId) by { hide ReplyTarget; }
    var chain, views, annotations := Render(apply, byId, rootId, path, fork, overlays);
    var pending := SortSet(set p | p in held :: p.id, IdKey);
    res := Resolution(chain, views, pending, annotations);
  }

  /** Application, the overlay states and the annotations, for a walked chain. */
  method Render(apply: Applier, byId: Observed, rootId: Id, path: seq<Event>, fork: set<Event>, overlays: set<Event>)
    returns (chain: ChainState, views: seq<Overlay>, annotations: seq<Annotation>)
    requires Keyed(byId) && Patchable(byId, rootId)
    requires (path, fork) == WalkOf(byId, rootId) && overlays == OverlayEvents(byId, rootId)
    ensures chain == ChainOf(apply, byId, rootId)
    ensures InjectiveOn(OverlayKey, OverlaySet(apply, byId, rootId))
    ensures views == Sorted(OverlaySet(apply, byId, rootId), OverlayKey)
    ensures InjectiveOn(AnnotationKey, AnnotationSet(apply, byId, rootId))
    ensures annotations == Sorted(AnnotationSet(apply, byId, rootId), AnnotationKey)
  {
    ghost var line := Line(byId, rootId);
    ghost var run := RunOf(apply, byId, rootId);
    PatchesKeyed(byId, rootId);
    assert IdDetermines(overlays) && IdDetermines(fork) by { hide ReplyTarget, IsPatchFor; }
    OverlayKeysDiffer(apply, byId, rootId);
    AnnotationKeysDiffer(apply, byId, rootId);
    hide ReplyTarget, IsPatchFor, Line, OverlayEvents, PassDone, WalkedTo, Canonical, Advance, TrialOf,
      LimitAnnotations, StopAnnotations, ForkAnnotations, OverlayOf, BranchesOf, InjectiveOn;

    var overlaysByTarget := ByReplyTarget(overlays);
    var content, applied, stop, applies, reports :=
      ApplyChain(apply, rootId, byId[rootId].content, path, overlaysByTarget, line, overlays);
    chain := RenderChain(rootId, path, fork, run, content, applied, stop);
    views := RenderOverlays(apply, byId, rootId, path, run, chain, line, overlays, applied, applies, reports);
    annotations := RenderAnnotations(apply, rootId, path, fork, stop, run, overlays, applies, reports);
  }

  method RenderChain(rootId: Id, path: seq<Event>, fork: set<Event>, ghost run: Run, content: string, applied: seq<Id>, stop: Stop)
    returns (chain: ChainState)
    requires 1 <= |run.contents| <= |path| + 1 && |applied| == |run.contents| - 1 && stop == run.stop
    requires content == run.contents[|applied|] && applied == IdSeq(path[..|applied|])
    ensures chain == ChainStateOf(rootId, path, fork, run)
  {
    var tip := Position(rootId, path, |applied|);
    match stop
    case HaltedAt(p, reason) => return Halted(content, tip, applied, p.id, reason);
    case AbortedAt(p, limit) => return Aborted(content, tip, applied, p.id, limit);
    case Completed =>
      if fork == {} { return Resolved(content, tip, applied); }
      var branchIds := SortSet(set b | b in fork :: b.id, IdKey);
      return Forked(content, Position(rootId, path, |path|), branchIds);
  }

  method RenderOverlays(apply: Applier, byId: Observed, rootId: Id, path: seq<Event>, ghost run: Run, chain: ChainState,
                        ghost line: set<Event>, overlays: set<Event>, applied: seq<Id>, applies: map<Id, bool>, ghost reports: seq<Annotation>)
    returns (views: seq<Overlay>)
    requires 1 <= |run.contents| <= |path| + 1 && |applied| == |run.contents| - 1
    requires applied == IdSeq(path[..|applied|]) && WalkedTo(line, rootId, path)
    requires forall o :: o in overlays ==> ReplyTarget(o).Some?
    requires PassDone(apply, rootId, path, run.contents, overlays, applies, reports)
    requires InjectiveOn(OverlayKey, set o | o in overlays :: OverlayOf(apply, byId, rootId, path, run, chain, o))
    ensures views == Sorted(set o | o in overlays :: OverlayOf(apply, byId, rootId, path, run, chain, o), OverlayKey)
  {
    var tip := if chain.Forked? then None else Some(Position(rootId, path, |applied|));
    var defined := {rootId} + set id | id in applied;
    OverlaysRight(apply, byId, rootId, path, run, chain, line, overlays, applies, reports, defined, tip);
    hide OverlayOf, PassDone, InjectiveOn, ReplyTarget, OverlayStateFor, WalkedTo, Position, IdSeq;
    var all := set o | o in overlays ::
      Overlay(o.id, o.pubkey, ReplyTarget(o).value, OverlayStateFor(o.id, ReplyTarget(o).value, defined, byId, applies, tip));
    assert all == set o | o in overlays :: OverlayOf(apply, byId, rootId, path, run, chain, o);
    views := SortSet(all, OverlayKey);
  }

  /** Every overlay as the resolver writes it is the specification's. */
  lemma OverlaysRight(apply: Applier, byId: Observed, rootId: Id, path: seq<Event>, run: Run, chain: ChainState,
                      line: set<Event>, overlays: set<Event>, applies: map<Id, bool>, reports: seq<Annotation>,
                      defined: set<Id>, tip: Option<Id>)
    requires 1 <= |run.contents| <= |path| + 1 && WalkedTo(line, rootId, path)
    requires forall o :: o in overlays ==> ReplyTarget(o).Some?
    requires PassDone(apply, rootId, path, run.contents, overlays, applies, reports)
    requires defined == {rootId} + Elems(IdSeq(path[..|run.contents| - 1]))
    requires tip == if chain.Forked? then None else Some(Position(rootId, path, |run.contents| - 1))
    ensures forall o :: o in overlays ==>
              Overlay(o.id, o.pubkey, ReplyTarget(o).value,
                      OverlayStateFor(o.id, ReplyTarget(o).value, defined, byId, applies, tip))
              == OverlayOf(apply, byId, rootId, path, run, chain, o)
  {
    hide PassDone, ReplyTarget, OverlayStateFor, WalkedTo, IdSeq, StateOf, TrialOf;
    forall o | o in overlays
      ensures Overlay(o.id, o.pubkey, ReplyTarget(o).value,
                      OverlayStateFor(o.id, ReplyTarget(o).value, defined, byId, applies, tip))
              == OverlayOf(apply, byId, rootId, path, run, chain, o)
    {
      OverlayStateRight(apply, byId, line, rootId, path, run.contents, overlays, applies, reports, defined, tip, o);
      hide Position;
    }
  }

  method RenderAnnotations(apply: Applier, rootId: Id, path: seq<Event>, fork: set<Event>, stop: Stop, ghost run: Run,
                           ghost overlays: set<Event>, ghost applies: map<Id, bool>, reports: seq<Annotation>)
    returns (annotations: seq<Annotation>)
    requires 1 <= |run.contents| <= |path| + 1 && IdDetermines(fork) && stop == run.stop
    requires forall o :: o in overlays ==> ReplyTarget(o).Some?
    requires PassDone(apply, rootId, path, run.contents, overlays, applies, reports)
    requires InjectiveOn(AnnotationKey, LimitAnnotations(apply, rootId, path, run.contents, overlays)
                                        + StopAnnotations(run.stop) + ForkAnnotations(rootId, path, fork))
    ensures annotations == Sorted(LimitAnnotations(apply, rootId, path, run.contents, overlays)
                                  + StopAnnotations(run.stop) + ForkAnnotations(rootId, path, fork), AnnotationKey)
  {
    var limits := set a | a in reports;
    assert limits == LimitAnnotations(apply, rootId, path, run.contents, overlays);
    var stops := StopReport(stop);
    var forks := ForkReport(rootId, path, fork);
    hide *;
    annotations := SortSet(limits + stops + forks, AnnotationKey);
  }

  method StopReport(stop: Stop) returns (report: set<Annotation>)
    ensures report == StopAnnotations(stop)
  {
    match stop
    case Completed => return {};
    case HaltedAt(p, reason) => return {ProtocolError(p.id, p.pubkey, reason)};
    case AbortedAt(p, _) => return {ResourceLimit(p.id, p.pubkey)};
  }

  method ForkReport(rootId: Id, path: seq<Event>, fork: set<Event>) returns (report: set<Annotation>)
    requires IdDetermines(fork)
    ensures report == ForkAnnotations(rootId, path, fork)
  {
    if fork == {} { return {}; }
    BranchKeysDiffer(fork);
    hide InjectiveOn, IdDetermines;
    var branches := SortSet(set b | b in fork :: ForkBranch(b.id, b.pubkey, b.createdAt), BranchKey);
    return {SelfFork(Position(rootId, path, |path|), branches)};
  }

  lemma BranchKeysDiffer(fork: set<Event>)
    requires IdDetermines(fork)
    ensures InjectiveOn(BranchKey, BranchesOf(fork))
  {
  }
}
