/**
 * The validity layer: one event in, a verdict out, looking up only the events it refers to.
 * The payload grammar of a patch is a parameter: `badPayload` says whether an event's content
 * carries a payload the grammar rejects.
 */
module Validate {
  import opened Prelude
  import opened Events

  type PayloadCheck = string -> bool

  datatype Validity =
    | NotScrutiny
    | Valid(etype: EventType)
    | Invalid
    | Pending(etype: EventType, awaiting: seq<Id>)

  /** What a per-type check found: an error, and the ids whose arrival would settle the rest. */
  datatype Findings = Findings(error: bool, awaiting: seq<Id>)

  function Occurrences(labels: seq<Label>, fabric: bool): nat {
    if labels == [] then 0
    else (if (if fabric then labels[0].FabricLabel? else labels[0].VersionLabel?) then 1 else 0) + Occurrences(labels[1..], fabric)
  }

  /** Exactly one fabric tag and exactly one version tag (a single type tag is tested by `TypeOf`). */
  predicate TagsOk(e: Event) {
    Occurrences(e.labels, true) == 1 && Occurrences(e.labels, false) == 1
  }

  predicate PrefixChar(c: char) { 'a' <= c <= 'z' || '0' <= c <= '9' || c == '-' }

  /** `<prefix>:<value>`, split at the first colon, with a non-empty lowercase prefix. */
  predicate IndexerOk(raw: string) {
    exists k :: 0 < k < |raw| && raw[k] == ':' && forall j :: 0 <= j < k ==> PrefixChar(raw[j])
  }

  function Merge(a: Findings, b: Findings): Findings {
    Findings(a.error || b.error, a.awaiting + b.awaiting)
  }

  function CheckEndpoint(id: Id, required: EventType, obs: Observed): Findings {
    if id !in obs then Findings(false, [id]) else Findings(TypeOf(obs[id]) != Some(required), [])
  }

  function CheckBinding(e: Event, obs: Observed): Findings {
    var roots, links := WithMarker(e.refs, RootMark), WithMarker(e.refs, LinkMark);
    if |roots| != 1 || |links| != 1 then Findings(true, [])
    else Merge(CheckEndpoint(roots[0].id, Product, obs), CheckEndpoint(links[0].id, Metadata, obs))
  }

  function CheckPatch(e: Event, obs: Observed, badPayload: PayloadCheck): Findings {
    var roots, replies := WithMarker(e.refs, RootMark), WithMarker(e.refs, ReplyMark);
    if |roots| != 1 || |replies| != 1 then Findings(true, [])
    else
      var root, reply := roots[0].id, replies[0].id;
      var bad := badPayload(e.content);
      if root !in obs then Findings(bad, [root])
      else
        var error := bad || !IsRoot(obs[root]);
        if e.pubkey == obs[root].pubkey || reply == root then Findings(error, [])
        else if reply !in obs then Findings(error, [reply])
        else Findings(error || !(TypeOf(obs[reply]) == Some(Patch) && obs[reply].pubkey == obs[root].pubkey), [])
  }

  function CheckType(e: Event, etype: EventType, obs: Observed, badPayload: PayloadCheck): Findings {
    match etype
    case Product => Findings(exists raw :: raw in e.indexers && !IndexerOk(raw), [])
    case Metadata => Findings(exists raw :: raw in e.indexers && !IndexerOk(raw), [])
    case Binding => CheckBinding(e, obs)
    case Patch => CheckPatch(e, obs, badPayload)
  }

  function ValidateEvent(e: Event, obs: Observed, badPayload: PayloadCheck): Validity {
    if !IsScrutiny(e) then NotScrutiny
    else if TypeOf(e).None? then Invalid
    else
      var found := CheckType(e, TypeOf(e).value, obs, badPayload);
      if !TagsOk(e) || found.error then Invalid
      else if found.awaiting != [] then Pending(TypeOf(e).value, found.awaiting)
      else Valid(TypeOf(e).value)
  }

  /** `wide` holds everything `obs` holds. */
  ghost predicate Extends(obs: Observed, wide: Observed) {
    forall id :: id in obs ==> id in wide && wide[id] == obs[id]
  }

  /** A pending event awaits only ids that are not observed, and at least one. */
  lemma AwaitsUnobserved(e: Event, obs: Observed, badPayload: PayloadCheck)
    requires ValidateEvent(e, obs, badPayload).Pending?
    ensures ValidateEvent(e, obs, badPayload).awaiting != []
    ensures forall a :: a in ValidateEvent(e, obs, badPayload).awaiting ==> a !in obs
  {
    hide TagsOk, IsScrutiny, TypeOf, IndexerOk, WithMarker;
  }

  /**
   * Verdicts never flip as the observed set grows: valid, invalid and not-SCRUTINY are final, and
   * a pending verdict can only change when an id it awaits arrives.
   */
  lemma VerdictsAreStable(e: Event, obs: Observed, wide: Observed, badPayload: PayloadCheck)
    requires Extends(obs, wide)
    ensures var v := ValidateEvent(e, obs, badPayload);
            !v.Pending? || (forall a :: a in v.awaiting ==> a !in wide) ==> ValidateEvent(e, wide, badPayload) == v
  {
    hide TagsOk, IsScrutiny, TypeOf, IndexerOk, WithMarker, IsRoot;
    if TypeOf(e).Some? {
      var found := CheckType(e, TypeOf(e).value, obs, badPayload);
      if TypeOf(e).value == Binding && |WithMarker(e.refs, RootMark)| == 1 && |WithMarker(e.refs, LinkMark)| == 1 {
        var r, l := WithMarker(e.refs, RootMark)[0].id, WithMarker(e.refs, LinkMark)[0].id;
        assert r !in obs ==> r in found.awaiting;
        assert l !in obs ==> l in found.awaiting;
      }
      if TypeOf(e).value == Patch && |WithMarker(e.refs, RootMark)| == 1 && |WithMarker(e.refs, ReplyMark)| == 1 {
        var r, t := WithMarker(e.refs, RootMark)[0].id, WithMarker(e.refs, ReplyMark)[0].id;
        assert r !in obs ==> r in found.awaiting;
        assert r in obs && e.pubkey != obs[r].pubkey && t != r && t !in obs ==> t in found.awaiting;
      }
    }
  }

  /** Only bindings and patches are ever held pending. */
  lemma PendingTypes(e: Event, obs: Observed, badPayload: PayloadCheck)
    requires ValidateEvent(e, obs, badPayload).Pending?
    ensures TypeOf(e) == Some(Binding) || TypeOf(e) == Some(Patch)
  {
    hide TagsOk, IsScrutiny, TypeOf, WithMarker;
  }

  // ---------------------------------------------------------------- exactly which events are valid

  lemma {:induction false} OccurrencesMean(labels: seq<Label>, fabric: bool)
    ensures Occurrences(labels, fabric) == 0 <==> NoneOf(labels, if fabric then IsFabricTag else IsVersionTag)
    ensures Occurrences(labels, fabric) == 1 <==> ExactlyOne(labels, if fabric then IsFabricTag else IsVersionTag)
  {
    if labels != [] {
      OccurrencesMean(labels[1..], fabric);
      ExactlyOneStep(labels, if fabric then IsFabricTag else IsVersionTag);
      hide ExactlyOne, NoneOf;
    }
  }

  /** Exactly one fabric tag, one version tag and one type tag, of type `t`. */
  ghost predicate Tagged(e: Event, t: EventType) {
    && ExactlyOne(e.labels, IsFabricTag) && ExactlyOne(e.labels, IsVersionTag)
    && ExactlyOne(e.labels, IsTypeTag) && TypeLabel(t) in e.labels
  }

  lemma TaggedMeans(e: Event, t: EventType)
    ensures Tagged(e, t) <==> TagsOk(e) && TypeOf(e) == Some(t)
    ensures Tagged(e, t) ==> IsScrutiny(e)
  {
    OccurrencesMean(e.labels, true);
    OccurrencesMean(e.labels, false);
    TypeMeans(e, t);
    hide Occurrences, TypeOf;
  }

  /** What the tags decide by themselves: no fabric tag is out of scope, no single type or a wrong count of tags is invalid. */
  lemma TagsDecide(e: Event, obs: Observed, badPayload: PayloadCheck)
    ensures ValidateEvent(e, obs, badPayload) == NotScrutiny <==> FabricLabel !in e.labels
    ensures FabricLabel in e.labels && (forall t :: !Tagged(e, t)) ==> ValidateEvent(e, obs, badPayload) == Invalid
    ensures forall t :: Tagged(e, t) ==>
              var v := ValidateEvent(e, obs, badPayload);
              v.Invalid? || v == Valid(t) || (v.Pending? && v.etype == t)
  {
    forall t ensures Tagged(e, t) <==> TagsOk(e) && TypeOf(e) == Some(t)
             ensures Tagged(e, t) ==> IsScrutiny(e)
    {
      TaggedMeans(e, t);
    }
    hide TagsOk, TypeOf, Tagged, CheckType;
    if FabricLabel in e.labels && TypeOf(e).Some? { assert Tagged(e, TypeOf(e).value) <==> TagsOk(e); }
  }

  const LETTERS := "abcdefghijklmnopqrstuvwxyz"

  const DIGITS := "0123456789"

  lemma PrefixChars(c: char)
    ensures PrefixChar(c) <==> c in LETTERS || c in DIGITS || c == '-'
  {
    assert LETTERS == ['a', 'b', 'c', 'd', 'e', 'f', 'g', 'h', 'i', 'j', 'k', 'l', 'm',
                       'n', 'o', 'p', 'q', 'r', 's', 't', 'u', 'v', 'w', 'x', 'y', 'z'];
    assert DIGITS == ['0', '1', '2', '3', '4', '5', '6', '7', '8', '9'];
  }

  /** An indexer is well formed exactly when it is a lowercase prefix, a colon and any value. */
  lemma IndexerMeans(raw: string)
    ensures IndexerOk(raw) <==>
            exists prefix, value :: raw == prefix + ":" + value && prefix != ""
                                    && forall c :: c in prefix ==> c in LETTERS || c in DIGITS || c == '-'
  {
    forall c ensures PrefixChar(c) <==> c in LETTERS || c in DIGITS || c == '-' { PrefixChars(c); }
    hide LETTERS, DIGITS, PrefixChar;
    if k :| 0 < k < |raw| && raw[k] == ':' && forall j :: 0 <= j < k ==> PrefixChar(raw[j]) {
      ColonSplits(raw, k);
    }
    if prefix, value :| raw == prefix + ":" + value && prefix != ""
                        && forall c :: c in prefix ==> c in LETTERS || c in DIGITS || c == '-'
    {
      ColonJoins(raw, prefix, value);
    }
  }

  lemma ColonSplits(raw: string, k: nat)
    requires 0 < k < |raw| && raw[k] == ':' && forall j :: 0 <= j < k ==> PrefixChar(raw[j])
    ensures exists prefix, value :: raw == prefix + ":" + value && prefix != "" && forall c :: c in prefix ==> PrefixChar(c)
  {
    hide PrefixChar;
    assert raw == raw[..k] + ":" + raw[k + 1..];
  }

  lemma ColonJoins(raw: string, prefix: string, value: string)
    requires raw == prefix + ":" + value && prefix != "" && forall c :: c in prefix ==> PrefixChar(c)
    ensures IndexerOk(raw)
  {
    hide PrefixChar;
    assert raw[|prefix|] == ':';
    forall j | 0 <= j < |prefix| ensures PrefixChar(raw[j]) { assert raw[j] == prefix[j]; }
  }

  /** A product or metadata event is valid exactly when every indexer is well formed; it never waits. */
  lemma RootVerdict(e: Event, obs: Observed, badPayload: PayloadCheck, t: EventType)
    requires Tagged(e, t) && (t == Product || t == Metadata)
    ensures ValidateEvent(e, obs, badPayload) ==
            if forall raw :: raw in e.indexers ==> IndexerOk(raw) then Valid(t) else Invalid
  {
    TaggedMeans(e, t);
    hide TagsOk, TypeOf, Tagged, IndexerOk, IsScrutiny;
  }

  /** The binding names one product-to-be and one metadata-to-be, and no observed endpoint is of another type. */
  ghost predicate BindingFits(e: Event, obs: Observed, product: Id, metadata: Id) {
    && OnlyRef(e.refs, RootMark, product) && OnlyRef(e.refs, LinkMark, metadata)
    && (product in obs ==> TypeOf(obs[product]) == Some(Product))
    && (metadata in obs ==> TypeOf(obs[metadata]) == Some(Metadata))
  }

  /**
   * A binding is valid exactly when its one root reference is an observed product and its one link
   * reference an observed metadata; pending exactly when one is still missing and none is of a wrong
   * type, on exactly the missing ones; invalid otherwise.
   */
  lemma BindingVerdict(e: Event, obs: Observed, badPayload: PayloadCheck)
    requires Tagged(e, Binding)
    ensures var v := ValidateEvent(e, obs, badPayload);
            && (v == Valid(Binding) <==>
                  exists product, metadata :: BindingFits(e, obs, product, metadata) && product in obs && metadata in obs)
            && (v.Pending? <==>
                  exists product, metadata :: BindingFits(e, obs, product, metadata) && !(product in obs && metadata in obs))
            && (v.Pending? ==> forall product, metadata :: BindingFits(e, obs, product, metadata) ==>
                  forall a :: a in v.awaiting <==> a !in obs && (a == product || a == metadata))
  {
    TaggedMeans(e, Binding);
    forall id ensures OnlyRef(e.refs, RootMark, id) <==> |WithMarker(e.refs, RootMark)| == 1 && WithMarker(e.refs, RootMark)[0].id == id
              ensures OnlyRef(e.refs, LinkMark, id) <==> |WithMarker(e.refs, LinkMark)| == 1 && WithMarker(e.refs, LinkMark)[0].id == id
    {
      OnlyRefMeans(e.refs, RootMark, id);
      OnlyRefMeans(e.refs, LinkMark, id);
    }
    hide TagsOk, TypeOf, Tagged, IsScrutiny, OnlyRef, WithMarker;
    if |WithMarker(e.refs, RootMark)| == 1 && |WithMarker(e.refs, LinkMark)| == 1 {
      var product, metadata := WithMarker(e.refs, RootMark)[0].id, WithMarker(e.refs, LinkMark)[0].id;
      assert OnlyRef(e.refs, RootMark, product) && OnlyRef(e.refs, LinkMark, metadata);
      assert BindingFits(e, obs, product, metadata) <==>
             (product in obs ==> TypeOf(obs[product]) == Some(Product)) && (metadata in obs ==> TypeOf(obs[metadata]) == Some(Metadata));
    }
  }

  /** The patch names one root and one reply target, its payload is acceptable, and an observed root is a product or metadata. */
  ghost predicate PatchFits(e: Event, obs: Observed, badPayload: PayloadCheck, root: Id, target: Id) {
    && OnlyRef(e.refs, RootMark, root) && OnlyRef(e.refs, ReplyMark, target) && !badPayload(e.content)
    && (root in obs ==> TypeOf(obs[root]) == Some(Product) || TypeOf(obs[root]) == Some(Metadata))
  }

  /** Who may reply to what: the root's author to anything, anybody to the root, and to a patch of the root's author. */
  ghost predicate MayReply(e: Event, obs: Observed, root: Id, target: Id)
    requires root in obs
  {
    || e.pubkey == obs[root].pubkey || target == root
    || (target in obs && TypeOf(obs[target]) == Some(Patch) && obs[target].pubkey == obs[root].pubkey)
  }

  /**
   * A patch is valid exactly when it fits, its root is observed and it may reply to its target;
   * pending exactly when it fits and its root is missing, or a foreign patch's target is; on that id.
   */
  lemma PatchVerdict(e: Event, obs: Observed, badPayload: PayloadCheck)
    requires Tagged(e, Patch)
    ensures var v := ValidateEvent(e, obs, badPayload);
            && (v == Valid(Patch) <==>
                  exists root, target :: PatchFits(e, obs, badPayload, root, target) && root in obs && MayReply(e, obs, root, target))
            && (v.Pending? <==>
                  exists root, target :: PatchFits(e, obs, badPayload, root, target)
                    && (root in obs ==> !MayReply(e, obs, root, target) && target !in obs))
            && (v.Pending? ==> forall root, target :: PatchFits(e, obs, badPayload, root, target) ==>
                  v.awaiting == [if root in obs then target else root])
  {
    TaggedMeans(e, Patch);
    forall id ensures OnlyRef(e.refs, RootMark, id) <==> |WithMarker(e.refs, RootMark)| == 1 && WithMarker(e.refs, RootMark)[0].id == id
              ensures OnlyRef(e.refs, ReplyMark, id) <==> |WithMarker(e.refs, ReplyMark)| == 1 && WithMarker(e.refs, ReplyMark)[0].id == id
    {
      OnlyRefMeans(e.refs, RootMark, id);
      OnlyRefMeans(e.refs, ReplyMark, id);
    }
    hide TagsOk, TypeOf, Tagged, IsScrutiny, OnlyRef, WithMarker;
    if |WithMarker(e.refs, RootMark)| == 1 && |WithMarker(e.refs, ReplyMark)| == 1 {
      var root, target := WithMarker(e.refs, RootMark)[0].id, WithMarker(e.refs, ReplyMark)[0].id;
      assert OnlyRef(e.refs, RootMark, root) && OnlyRef(e.refs, ReplyMark, target);
      assert PatchFits(e, obs, badPayload, root, target) <==>
             !badPayload(e.content) && (root in obs ==> TypeOf(obs[root]) == Some(Product) || TypeOf(obs[root]) == Some(Metadata));
    }
  }
}
