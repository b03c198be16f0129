/** The capability merge a persistent approval writes (src/domain/permissions/action-lifecycle.ts):
    the raw snapshot is split by principal stamp, the approver's part is extended, and the parts are
    put back together. */
module PolicyMerge {
  import opened Optional

  datatype Kind = ReadRoot | WriteRoot | Other(kind: string)

  /** `scope` stands for the fields the merge only hands to `covers`; `root` is read for the root kinds. */
  datatype Capability = Capability(kind: Kind, root: string, scope: string, principalId: Option<string>)

  type Covers = (Capability, Capability) -> bool

  /** JavaScript truthiness of `c.principalId`: an absent and an empty stamp are both falsy. */
  predicate Stamped(c: Capability) {
    c.principalId.Some? && c.principalId.value != ""
  }

  predicate OfOther(c: Capability, target: string) {
    Stamped(c) && c.principalId.value != target
  }

  predicate Owned(c: Capability, target: string) {
    c.principalId == Some(target)
  }

  predicate UniversalRoot(c: Capability) {
    (c.kind.ReadRoot? || c.kind.WriteRoot?) && (c.root == "*" || c.root == "/" || c.root == "")
  }

  predicate KeptUnstamped(c: Capability, multi: bool) {
    !Stamped(c) && !(multi && UniversalRoot(c))
  }

  predicate Dropped(c: Capability, multi: bool) {
    !Stamped(c) && multi && UniversalRoot(c)
  }

  function Filter(caps: seq<Capability>, keep: Capability -> bool): (r: seq<Capability>)
    ensures forall c :: c in r <==> c in caps && keep(c)
  {
    if caps == [] then []
    else
      var front := Filter(caps[..|caps| - 1], keep);
      if keep(caps[|caps| - 1]) then front + [caps[|caps| - 1]] else front
  }

  /** `setCovers`. */
  predicate SetCovers(covers: Covers, caps: seq<Capability>, c: Capability) {
    exists i :: 0 <= i < |caps| && covers(caps[i], c)
  }

  /** `{ ...c, principalId: c.principalId ?? target }` */
  function Stamp(c: Capability, target: string): Capability {
    if c.principalId.None? then c.(principalId := Some(target)) else c
  }

  function StampAll(caps: seq<Capability>, target: string): (r: seq<Capability>)
    ensures |r| == |caps| && forall i :: 0 <= i < |caps| ==> r[i] == Stamp(caps[i], target)
  {
    seq(|caps|, i requires 0 <= i < |caps| => Stamp(caps[i], target))
  }

  /** The candidates the dedup pass adds after `own`, in order. */
  function Added(covers: Covers, own: seq<Capability>, candidates: seq<Capability>): (added: seq<Capability>)
    ensures forall c :: c in added ==> c in candidates
  {
    if candidates == [] then []
    else
      var before := Added(covers, own, candidates[..|candidates| - 1]);
      var c := candidates[|candidates| - 1];
      if SetCovers(covers, own + before, c) then before else before + [c]
  }

  function Merged(covers: Covers, raw: seq<Capability>, target: string, multi: bool, candidates: seq<Capability>)
    : seq<Capability>
  {
    var own := Filter(raw, c => Owned(c, target));
    Filter(raw, c => OfOther(c, target)) + Filter(raw, c => KeptUnstamped(c, multi))
      + (own + Added(covers, own, candidates))
  }

  function AddedTo(covers: Covers, raw: seq<Capability>, target: string, candidates: seq<Capability>): seq<Capability> {
    Added(covers, Filter(raw, c => Owned(c, target)), candidates)
  }

  /** The merge as the code runs it: three filters, then a loop that pushes. */
  method Merge(covers: Covers, raw: seq<Capability>, target: string, multi: bool,
               baseline: seq<Capability>, missing: seq<Capability>, project: bool)
    returns (next: seq<Capability>)
    ensures next == Merged(covers, raw, target, multi, StampAll((if project then baseline else []) + missing, target))
  {
    var otherPrincipalCaps := Filter(raw, c => OfOther(c, target));
    var unstampedCaps := Filter(raw, c => KeptUnstamped(c, multi));
    var currentPrincipalCaps := Filter(raw, c => Owned(c, target));
    var candidates := StampAll((if project then baseline else []) + missing, target);
    var nextPrincipalCaps := currentPrincipalCaps;
    var i := 0;
    while i < |candidates|
      invariant 0 <= i <= |candidates|
      invariant nextPrincipalCaps == currentPrincipalCaps + Added(covers, currentPrincipalCaps, candidates[..i])
    {
      assert candidates[..i + 1][..i] == candidates[..i];
      if !SetCovers(covers, nextPrincipalCaps, candidates[i]) {
        nextPrincipalCaps := nextPrincipalCaps + [candidates[i]];
      }
      i := i + 1;
    }
    assert candidates[..i] == candidates;
    next := otherPrincipalCaps + unstampedCaps + nextPrincipalCaps;
  }

  // ---- What the merge keeps

  function Count(caps: seq<Capability>, c: Capability): nat {
    multiset(caps)[c]
  }

  lemma {:induction false} FilterCount(caps: seq<Capability>, keep: Capability -> bool, c: Capability)
    ensures Count(Filter(caps, keep), c) == if keep(c) then Count(caps, c) else 0
  {
    if caps != [] {
      FilterCount(caps[..|caps| - 1], keep, c);
      assert caps == caps[..|caps| - 1] + [caps[|caps| - 1]];
    }
  }

  /** How often a capability stands in the merge: once for each group it falls into, plus additions. */
  lemma MergeCount(covers: Covers, raw: seq<Capability>, target: string, multi: bool,
                   candidates: seq<Capability>, c: Capability)
    ensures Count(Merged(covers, raw, target, multi, candidates), c)
         == (if OfOther(c, target) then Count(raw, c) else 0)
            + (if KeptUnstamped(c, multi) then Count(raw, c) else 0)
            + (if Owned(c, target) then Count(raw, c) else 0)
            + Count(AddedTo(covers, raw, target, candidates), c)
  {
    var other, kept := (c: Capability) => OfOther(c, target), (c: Capability) => KeptUnstamped(c, multi);
    var owned := (c: Capability) => Owned(c, target);
    FilterCount(raw, other, c);
    FilterCount(raw, kept, c);
    FilterCount(raw, owned, c);
    var own := Filter(raw, owned);
    var added := Added(covers, own, candidates);
    assert multiset(Filter(raw, other) + Filter(raw, kept) + (own + added))
        == multiset(Filter(raw, other)) + multiset(Filter(raw, kept)) + multiset(own) + multiset(added);
  }

  /** Conservation: for every capability, (written + dropped) = (read + added). */
  ghost predicate Conserves(covers: Covers, raw: seq<Capability>, target: string, multi: bool, candidates: seq<Capability>)
  {
    forall c: Capability ::
      Count(Merged(covers, raw, target, multi, candidates), c) + (if Dropped(c, multi) then Count(raw, c) else 0)
        == Count(raw, c) + Count(AddedTo(covers, raw, target, candidates), c)
  }

  /** The main result about one merge: it conserves every capability exactly when the approver's id is
      not the empty string or nothing stored carries an empty stamp. Otherwise an empty-stamped capability
      is both "unstamped" and "the approver's own", and is written twice. */
  lemma MergeConserves(covers: Covers, raw: seq<Capability>, target: string, multi: bool, candidates: seq<Capability>)
    ensures Conserves(covers, raw, target, multi, candidates)
       <==> target != "" || (forall c :: c in raw ==> c.principalId != Some(""))
  {
    forall c { MergeCount(covers, raw, target, multi, candidates, c); }
    if target == "" && exists c :: c in raw && c.principalId == Some("") {
      var c :| c in raw && c.principalId == Some("");
      assert Count(raw, c) > 0;
      assert Owned(c, target) && !Stamped(c);
    }
  }

  /** Nothing the approver asked for is left out: each candidate stands in the merge or is covered by it. */
  lemma {:induction false} CandidatesCovered(covers: Covers, own: seq<Capability>, candidates: seq<Capability>, k: nat)
    requires k < |candidates|
    ensures candidates[k] in Added(covers, own, candidates)
         || SetCovers(covers, own + Added(covers, own, candidates), candidates[k])
  {
    var n := |candidates| - 1;
    var front := candidates[..n];
    var before, all := Added(covers, own, front), Added(covers, own, candidates);
    if k < n {
      CandidatesCovered(covers, own, front, k);
      if SetCovers(covers, own + before, candidates[k]) {
        var i :| 0 <= i < |own + before| && covers((own + before)[i], candidates[k]);
        assert (own + all)[i] == (own + before)[i];
      }
    } else if SetCovers(covers, own + before, candidates[n]) {
      assert all == before;
    } else {
      assert all == before + [candidates[n]];
    }
  }

  /** In the merged policy itself, every candidate stands or is covered. */
  lemma MergedCovers(covers: Covers, raw: seq<Capability>, target: string, multi: bool, candidates: seq<Capability>, k: nat)
    requires k < |candidates|
    ensures var next := Merged(covers, raw, target, multi, candidates);
            candidates[k] in next || SetCovers(covers, next, candidates[k])
  {
    var own := Filter(raw, c => Owned(c, target));
    var mine := own + Added(covers, own, candidates);
    var others := Filter(raw, c => OfOther(c, target)) + Filter(raw, c => KeptUnstamped(c, multi));
    CandidatesCovered(covers, own, candidates, k);
    if SetCovers(covers, mine, candidates[k]) {
      var i :| 0 <= i < |mine| && covers(mine[i], candidates[k]);
      assert (others + mine)[|others| + i] == mine[i];
    } else {
      assert candidates[k] in mine;
    }
  }
}
