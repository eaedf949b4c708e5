/**
 * The exemption store: for every policy, the matchers that exempt resources
 * from it, each tagged with the uid of the UDSExemption that contributed it,
 * and for every owner uid the exemption it last contributed.
 */
module ExemptionStore {
  import opened Wrappers
  import opened Strings

  /** Which resources an exemption covers (a namespace and a name pattern, optionally a kind). */
  datatype Matcher = Matcher(namespace: string, name: string, kind: Option<string>)

  /** `{...matcher, owner}`. */
  datatype StoredMatcher = StoredMatcher(matcher: Matcher, owner: string)

  /** One block of an exemption's spec: a matcher and the policies it is exempt from. */
  datatype ExemptionEntry = ExemptionEntry(matcher: Matcher, policies: Option<seq<string>>)

  /** A UDSExemption: its `metadata.uid` and its `spec.exemptions`. */
  datatype Exemption = Exemption(uid: Option<string>, exemptions: Option<seq<ExemptionEntry>>)

  /** `exemption.metadata?.uid || ""`. */
  function Owner(ex: Exemption): (r: string)
    ensures Truthy(ex.uid) ==> r == ex.uid.value
    ensures !Truthy(ex.uid) ==> r == ""
  {
    if Truthy(ex.uid) then ex.uid.value else ""
  }

  function Entries(ex: Exemption): seq<ExemptionEntry> { ex.exemptions.UnwrapOr([]) }

  function PoliciesOf(e: ExemptionEntry): seq<string> { e.policies.UnwrapOr([]) }

  /** Some block of `entries` lists policy `p`. */
  predicate Listed(entries: seq<ExemptionEntry>, p: string)
    decreases |entries|
  {
    entries != [] && (p in PoliciesOf(entries[|entries| - 1]) || Listed(entries[..|entries| - 1], p))
  }

  type Store = map<string, seq<StoredMatcher>>

  /** `filter(m => m.owner !== owner)`. */
  function WithoutOwner(ms: seq<StoredMatcher>, owner: string): (r: seq<StoredMatcher>)
    ensures forall sm :: sm in r <==> sm in ms && sm.owner != owner
    ensures |r| <= |ms|
    decreases |ms|
  {
    if ms == [] then []
    else
      var last := ms[|ms| - 1];
      assert ms == ms[..|ms| - 1] + [last];
      WithoutOwner(ms[..|ms| - 1], owner) + (if last.owner != owner then [last] else [])
  }

  /** `policyExemptionMap.get(policy) || []`. */
  function PolicyMatchers(store: Store, p: string): (r: seq<StoredMatcher>)
    ensures p in store ==> r == store[p]
    ensures p !in store ==> r == []
  {
    if p in store then store[p] else []
  }

  // ---------------------------------------------------------------------
  // The store operations as functions
  // ---------------------------------------------------------------------

  /**
   * addMatcher: push onto the list stored for `p`. For a policy the store
   * does not hold, `getByPolicy` hands out a fresh `[]` and the push is lost.
   */
  function AddMatcherTo(store: Store, sm: StoredMatcher, p: string): (r: Store)
    ensures r.Keys == store.Keys
    ensures forall q :: q in r ==> r[q] == if q == p then store[q] + [sm] else store[q]
  {
    if p in store then store[p := store[p] + [sm]] else store
  }

  /** The inner loop of add: the matcher pushed for each listed policy in turn. */
  function AddPolicies(store: Store, m: Matcher, ps: seq<string>, owner: string): Store
    decreases |ps|
  {
    if ps == [] then store
    else AddMatcherTo(AddPolicies(store, m, ps[..|ps| - 1], owner), StoredMatcher(m, owner), ps[|ps| - 1])
  }

  /** The outer loop of add: every block in turn. */
  function AddEntries(store: Store, es: seq<ExemptionEntry>, owner: string): Store
    decreases |es|
  {
    if es == [] then store
    else
      var e := es[|es| - 1];
      AddPolicies(AddEntries(store, es[..|es| - 1], owner), e.matcher, PoliciesOf(e), owner)
  }

  /** The inner loop of remove: the owner's matchers filtered out of each listed policy. */
  function RemovePolicies(store: Store, ps: seq<string>, owner: string): Store
    decreases |ps|
  {
    if ps == [] then store
    else
      var s := RemovePolicies(store, ps[..|ps| - 1], owner);
      var p := ps[|ps| - 1];
      s[p := WithoutOwner(PolicyMatchers(s, p), owner)]
  }

  /** The outer loop of remove, over the blocks of the exemption stored for the owner. */
  function RemoveEntries(store: Store, es: seq<ExemptionEntry>, owner: string): Store
    decreases |es|
  {
    if es == [] then store
    else RemovePolicies(RemoveEntries(store, es[..|es| - 1], owner), PoliciesOf(es[|es| - 1]), owner)
  }

  /** One more turn of add's inner loop. */
  lemma AddPoliciesSnoc(store: Store, m: Matcher, ps: seq<string>, j: nat, owner: string)
    requires j < |ps|
    ensures AddPolicies(store, m, ps[..j + 1], owner) ==
      AddMatcherTo(AddPolicies(store, m, ps[..j], owner), StoredMatcher(m, owner), ps[j])
  {
    assert ps[..j + 1][..j] == ps[..j];
  }

  /** One more turn of add's outer loop. */
  lemma AddEntriesSnoc(store: Store, es: seq<ExemptionEntry>, i: nat, owner: string)
    requires i < |es|
    ensures AddEntries(store, es[..i + 1], owner) ==
      AddPolicies(AddEntries(store, es[..i], owner), es[i].matcher, PoliciesOf(es[i]), owner)
  {
    assert es[..i + 1][..i] == es[..i];
  }

  /** One more turn of remove's inner loop. */
  lemma RemovePoliciesSnoc(store: Store, ps: seq<string>, j: nat, owner: string)
    requires j < |ps|
    ensures var s := RemovePolicies(store, ps[..j], owner);
      RemovePolicies(store, ps[..j + 1], owner) == s[ps[j] := WithoutOwner(PolicyMatchers(s, ps[j]), owner)]
  {
    assert ps[..j + 1][..j] == ps[..j];
  }

  /** One more turn of remove's outer loop. */
  lemma RemoveEntriesSnoc(store: Store, es: seq<ExemptionEntry>, i: nat, owner: string)
    requires i < |es|
    ensures RemoveEntries(store, es[..i + 1], owner) ==
      RemovePolicies(RemoveEntries(store, es[..i], owner), PoliciesOf(es[i]), owner)
  {
    assert es[..i + 1][..i] == es[..i];
  }

  /** The matchers one block adds to policy `p`: one per time `p` is listed. */
  function NewForPolicies(m: Matcher, ps: seq<string>, owner: string, p: string): seq<StoredMatcher>
    decreases |ps|
  {
    if ps == [] then []
    else NewForPolicies(m, ps[..|ps| - 1], owner, p) + (if ps[|ps| - 1] == p then [StoredMatcher(m, owner)] else [])
  }

  /** The matchers an exemption adds to policy `p`, in the order of its blocks. */
  function NewFor(es: seq<ExemptionEntry>, owner: string, p: string): seq<StoredMatcher>
    decreases |es|
  {
    if es == [] then []
    else
      var e := es[|es| - 1];
      NewFor(es[..|es| - 1], owner, p) + NewForPolicies(e.matcher, PoliciesOf(e), owner, p)
  }

  // ---------------------------------------------------------------------
  // Lemmas: the effect of each operation on one policy
  // ---------------------------------------------------------------------

  /** Filtering twice is filtering once. */
  lemma {:induction false} WithoutOwnerIdempotent(ms: seq<StoredMatcher>, owner: string)
    ensures WithoutOwner(WithoutOwner(ms, owner), owner) == WithoutOwner(ms, owner)
    decreases |ms|
  {
    if ms != [] {
      var init := ms[..|ms| - 1];
      var last := ms[|ms| - 1];
      WithoutOwnerIdempotent(init, owner);
      WithoutOwnerAppend(WithoutOwner(init, owner), if last.owner != owner then [last] else [], owner);
      if last.owner != owner {
        WithoutOwnerSingle(last, owner);
      }
    }
  }

  lemma WithoutOwnerSingle(sm: StoredMatcher, owner: string)
    requires sm.owner != owner
    ensures WithoutOwner([sm], owner) == [sm]
  {
    assert [sm][..0] == [];
  }

  /** Filtering distributes over concatenation. */
  lemma {:induction false} WithoutOwnerAppend(a: seq<StoredMatcher>, b: seq<StoredMatcher>, owner: string)
    ensures WithoutOwner(a + b, owner) == WithoutOwner(a, owner) + WithoutOwner(b, owner)
    decreases |b|
  {
    if b != [] {
      var init := b[..|b| - 1];
      var last := b[|b| - 1];
      assert (a + b)[..|a + b| - 1] == a + init;
      assert (a + b)[|a + b| - 1] == last;
      WithoutOwnerAppend(a, init, owner);
    } else {
      assert a + b == a;
    }
  }

  /** A list holding none of the owner's matchers is left alone by the filter. */
  lemma {:induction false} WithoutOwnerNoop(ms: seq<StoredMatcher>, owner: string)
    requires forall i :: 0 <= i < |ms| ==> ms[i].owner != owner
    ensures WithoutOwner(ms, owner) == ms
    decreases |ms|
  {
    if ms != [] {
      WithoutOwnerNoop(ms[..|ms| - 1], owner);
      assert ms == ms[..|ms| - 1] + [ms[|ms| - 1]];
    }
  }

  /** Every matcher a block adds carries the owner; none of them survives the owner's filter. */
  lemma {:induction false} NewForPoliciesOwned(m: Matcher, ps: seq<string>, owner: string, p: string)
    ensures forall sm :: sm in NewForPolicies(m, ps, owner, p) ==> sm.owner == owner && p in ps
    decreases |ps|
  {
    if ps != [] {
      NewForPoliciesOwned(m, ps[..|ps| - 1], owner, p);
      assert ps == ps[..|ps| - 1] + [ps[|ps| - 1]];
    }
  }

  /** Every matcher an exemption adds to `p` carries the owner, and `p` is listed by the exemption. */
  lemma {:induction false} NewForOwned(es: seq<ExemptionEntry>, owner: string, p: string)
    ensures forall sm :: sm in NewFor(es, owner, p) ==> sm.owner == owner && Listed(es, p)
    decreases |es|
  {
    if es != [] {
      var e := es[|es| - 1];
      NewForOwned(es[..|es| - 1], owner, p);
      NewForPoliciesOwned(e.matcher, PoliciesOf(e), owner, p);
    }
  }

  lemma Assoc(a: seq<StoredMatcher>, b: seq<StoredMatcher>, c: seq<StoredMatcher>)
    ensures a + b + c == a + (b + c)
  {
  }

  /** Filtering a list of the owner's own matchers leaves nothing. */
  lemma {:induction false} WithoutOwnerAllOwned(ms: seq<StoredMatcher>, owner: string)
    requires forall sm :: sm in ms ==> sm.owner == owner
    ensures WithoutOwner(ms, owner) == []
    decreases |ms|
  {
    if ms != [] {
      var init := ms[..|ms| - 1];
      assert forall sm :: sm in init ==> sm in ms;
      WithoutOwnerAllOwned(init, owner);
      assert ms[|ms| - 1] in ms;
    }
  }

  /** The inner loop of add appends, to each policy the store holds, that block's matchers for it. */
  lemma {:induction false} AddPoliciesAt(store: Store, m: Matcher, ps: seq<string>, owner: string)
    ensures AddPolicies(store, m, ps, owner).Keys == store.Keys
    ensures forall p :: p in store ==>
      AddPolicies(store, m, ps, owner)[p] == store[p] + NewForPolicies(m, ps, owner, p)
    decreases |ps|
  {
    if ps != [] {
      var init := ps[..|ps| - 1];
      AddPoliciesAt(store, m, init, owner);
      forall p | p in store
        ensures AddPolicies(store, m, ps, owner)[p] == store[p] + NewForPolicies(m, ps, owner, p)
      {
        Assoc(store[p], NewForPolicies(m, init, owner, p), if ps[|ps| - 1] == p then [StoredMatcher(m, owner)] else []);
      }
    }
  }

  /** The loops of add append, to each policy the store holds, the exemption's matchers for it. */
  lemma {:induction false} AddEntriesAt(store: Store, es: seq<ExemptionEntry>, owner: string)
    ensures AddEntries(store, es, owner).Keys == store.Keys
    ensures forall p :: p in store ==> AddEntries(store, es, owner)[p] == store[p] + NewFor(es, owner, p)
    decreases |es|
  {
    if es != [] {
      var init := es[..|es| - 1];
      var e := es[|es| - 1];
      AddEntriesAt(store, init, owner);
      AddPoliciesAt(AddEntries(store, init, owner), e.matcher, PoliciesOf(e), owner);
      forall p | p in store
        ensures AddEntries(store, es, owner)[p] == store[p] + NewFor(es, owner, p)
      {
        Assoc(store[p], NewFor(init, owner, p), NewForPolicies(e.matcher, PoliciesOf(e), owner, p));
      }
    }
  }

  /** The inner loop of remove filters the owner out of each listed policy, creating it if missing. */
  lemma {:induction false} RemovePoliciesAt(store: Store, ps: seq<string>, owner: string)
    ensures forall p :: p in RemovePolicies(store, ps, owner) <==> p in store || p in ps
    ensures forall p :: p in RemovePolicies(store, ps, owner) ==>
      RemovePolicies(store, ps, owner)[p] == if p in ps then WithoutOwner(PolicyMatchers(store, p), owner) else store[p]
    decreases |ps|
  {
    if ps != [] {
      var init := ps[..|ps| - 1];
      RemovePoliciesAt(store, init, owner);
      assert ps == init + [ps[|ps| - 1]];
      forall p | p in init {
        WithoutOwnerIdempotent(PolicyMatchers(store, p), owner);
      }
    }
  }

  /** The loops of remove filter the owner out of every policy the exemption lists. */
  lemma {:induction false} RemoveEntriesAt(store: Store, es: seq<ExemptionEntry>, owner: string)
    ensures forall p :: p in RemoveEntries(store, es, owner) <==> p in store || Listed(es, p)
    ensures forall p :: p in RemoveEntries(store, es, owner) ==>
      RemoveEntries(store, es, owner)[p] == if Listed(es, p) then WithoutOwner(PolicyMatchers(store, p), owner) else store[p]
    decreases |es|
  {
    if es != [] {
      var init := es[..|es| - 1];
      RemoveEntriesAt(store, init, owner);
      RemovePoliciesAt(RemoveEntries(store, init, owner), PoliciesOf(es[|es| - 1]), owner);
      forall p | Listed(init, p) && p in PoliciesOf(es[|es| - 1]) {
        WithoutOwnerIdempotent(PolicyMatchers(store, p), owner);
      }
    }
  }

  /**
   * Adding an exemption again finds its own matchers, drops them and pushes
   * the same ones: the list is what the first add left.
   */
  lemma ReAddDoesNotDuplicate(before: seq<StoredMatcher>, added: seq<StoredMatcher>, owner: string)
    requires forall sm :: sm in added ==> sm.owner == owner
    ensures WithoutOwner(WithoutOwner(before, owner) + added, owner) + added == WithoutOwner(before, owner) + added
  {
    WithoutOwnerAppend(WithoutOwner(before, owner), added, owner);
    WithoutOwnerIdempotent(before, owner);
    WithoutOwnerAllOwned(added, owner);
    assert WithoutOwner(before, owner) + [] == WithoutOwner(before, owner);
  }

  /**
   * When every stored matcher is accounted for, filtering the policies the
   * owner's exemption lists takes the owner's matchers out of every policy.
   */
  lemma RemoveOwnerAt(store: Store, owners: map<string, Exemption>, owner: string)
    requires forall o, p :: o in owners && Listed(Entries(owners[o]), p) ==> p in store
    requires forall p, sm :: p in store && sm in store[p] ==> Accounted(owners, p, sm)
    ensures owner in owners ==>
      var after := RemoveEntries(store, Entries(owners[owner]), owner);
      && after.Keys == store.Keys
      && forall p :: p in after ==> after[p] == WithoutOwner(store[p], owner)
    ensures owner !in owners ==> forall p :: p in store ==> WithoutOwner(store[p], owner) == store[p]
  {
    forall p | p in store && (owner !in owners || !Listed(Entries(owners[owner]), p))
      ensures WithoutOwner(store[p], owner) == store[p]
    {
      forall i | 0 <= i < |store[p]| ensures store[p][i].owner != owner {
        assert Accounted(owners, p, store[p][i]);
      }
      WithoutOwnerNoop(store[p], owner);
    }
    if owner in owners {
      RemoveEntriesAt(store, Entries(owners[owner]), owner);
    }
  }

  /** What the filter leaves is still accounted for once the owner is forgotten. */
  lemma RemoveKeepsAccounted(store: Store, owners: map<string, Exemption>, owner: string, after: Store)
    requires forall p, sm :: p in store && sm in store[p] ==> Accounted(owners, p, sm)
    requires after.Keys == store.Keys
    requires forall p :: p in after ==> after[p] == WithoutOwner(store[p], owner)
    ensures forall p, sm :: p in after && sm in after[p] ==> Accounted(owners - {owner}, p, sm)
  {
    forall p, sm | p in after && sm in after[p] ensures Accounted(owners - {owner}, p, sm) {
      assert Accounted(owners, p, sm);
    }
  }

  // ---------------------------------------------------------------------
  // The store
  // ---------------------------------------------------------------------

  /** A matcher stored under `p` is owned by a recorded exemption that lists `p`. */
  predicate Accounted(owners: map<string, Exemption>, p: string, sm: StoredMatcher)
  {
    sm.owner in owners && Listed(Entries(owners[sm.owner]), p)
  }

  class ExemptionStore {
    /** policyExemptionMap. */
    var policyExemptions: Store
    /** policyOwnerMap. */
    var policyOwners: map<string, Exemption>

    /**
     * Every policy a recorded exemption lists is held by the store, and every
     * stored matcher is accounted for by its owner's recorded exemption.
     */
    ghost predicate Valid()
      reads this
    {
      && (forall o, p :: o in policyOwners && Listed(Entries(policyOwners[o]), p) ==> p in policyExemptions)
      && (forall p, sm :: p in policyExemptions && sm in policyExemptions[p] ==> Accounted(policyOwners, p, sm))
    }

    constructor ()
      ensures policyExemptions == map[] && policyOwners == map[]
      ensures Valid()
    {
      policyExemptions := map[];
      policyOwners := map[];
    }

    /** init: an empty list for every member of the Policy enum (`policies`) and no owners. */
    method Init(policies: seq<string>)
      modifies this
      ensures forall p :: p in policyExemptions <==> p in policies
      ensures forall p :: p in policyExemptions ==> policyExemptions[p] == []
      ensures policyOwners == map[]
      ensures Valid()
    {
      policyExemptions := map[];
      policyOwners := map[];
      var i := 0;
      while i < |policies|
        invariant 0 <= i <= |policies|
        invariant forall p :: p in policyExemptions <==> p in policies[..i]
        invariant forall p :: p in policyExemptions ==> policyExemptions[p] == []
        invariant policyOwners == map[]
      {
        assert policies[..i + 1] == policies[..i] + [policies[i]];
        policyExemptions := policyExemptions[policies[i] := []];
        i := i + 1;
      }
      assert policies[..i] == policies;
    }

    /** getByPolicy. */
    function GetByPolicy(p: string): (r: seq<StoredMatcher>)
      reads this
      ensures p in policyExemptions ==> r == policyExemptions[p]
      ensures p !in policyExemptions ==> r == []
    {
      PolicyMatchers(policyExemptions, p)
    }

    /** addMatcher. */
    method AddMatcher(matcher: Matcher, p: string, owner: string)
      modifies this
      ensures policyExemptions == AddMatcherTo(old(policyExemptions), StoredMatcher(matcher, owner), p)
      ensures policyOwners == old(policyOwners)
    {
      if p in policyExemptions {
        policyExemptions := policyExemptions[p := policyExemptions[p] + [StoredMatcher(matcher, owner)]];
      }
    }

    /** The inner loop of add, for one block. */
    method AddBlock(e: ExemptionEntry, owner: string)
      modifies this
      ensures policyExemptions == AddPolicies(old(policyExemptions), e.matcher, PoliciesOf(e), owner)
      ensures policyOwners == old(policyOwners)
    {
      var policies := PoliciesOf(e);
      var j := 0;
      while j < |policies|
        invariant 0 <= j <= |policies|
        invariant policyExemptions == AddPolicies(old(policyExemptions), e.matcher, policies[..j], owner)
        invariant policyOwners == old(policyOwners)
      {
        AddPoliciesSnoc(old(policyExemptions), e.matcher, policies, j, owner);
        AddMatcher(e.matcher, policies[j], owner);
        j := j + 1;
      }
      assert policies[..j] == policies;
    }

    /** The inner loop of remove, for one block of the recorded exemption. */
    method RemoveBlock(e: ExemptionEntry, owner: string)
      modifies this
      ensures policyExemptions == RemovePolicies(old(policyExemptions), PoliciesOf(e), owner)
      ensures policyOwners == old(policyOwners)
    {
      var policies := PoliciesOf(e);
      var j := 0;
      while j < |policies|
        invariant 0 <= j <= |policies|
        invariant policyExemptions == RemovePolicies(old(policyExemptions), policies[..j], owner)
        invariant policyOwners == old(policyOwners)
      {
        RemovePoliciesSnoc(old(policyExemptions), policies, j, owner);
        var p := policies[j];
        var filtered := WithoutOwner(GetByPolicy(p), owner);
        policyExemptions := policyExemptions[p := filtered];
        j := j + 1;
      }
      assert policies[..j] == policies;
    }

    /**
     * remove: when the owner has a recorded exemption, its matchers are
     * filtered out of every policy that exemption lists and the owner is
     * forgotten; an unknown owner changes nothing. Since every stored matcher
     * is accounted for, that takes exactly the owner's matchers out of every
     * policy and keeps all other matchers in their order.
     */
    method Remove(exemption: Exemption)
      requires Valid()
      modifies this
      ensures Valid()
      ensures var owner := Owner(exemption);
        if owner in old(policyOwners) then
          && policyOwners == old(policyOwners) - {owner}
          && policyExemptions == RemoveEntries(old(policyExemptions), Entries(old(policyOwners)[owner]), owner)
        else
          policyOwners == old(policyOwners) && policyExemptions == old(policyExemptions)
      ensures policyExemptions.Keys == old(policyExemptions).Keys
      ensures forall p :: p in policyExemptions ==>
        policyExemptions[p] == WithoutOwner(old(policyExemptions)[p], Owner(exemption))
      ensures policyOwners == old(policyOwners) - {Owner(exemption)}
    {
      var owner := Owner(exemption);
      RemoveOwnerAt(policyExemptions, policyOwners, owner);
      if owner !in policyOwners {
        return;
      }
      var prev := policyOwners[owner];
      var entries := Entries(prev);
      var i := 0;
      while i < |entries|
        invariant 0 <= i <= |entries|
        invariant policyExemptions == RemoveEntries(old(policyExemptions), entries[..i], owner)
        invariant policyOwners == old(policyOwners)
      {
        RemoveEntriesSnoc(old(policyExemptions), entries, i, owner);
        RemoveBlock(entries[i], owner);
        i := i + 1;
      }
      assert entries[..i] == entries;
      policyOwners := policyOwners - {owner};
      RemoveKeepsAccounted(old(policyExemptions), old(policyOwners), owner, policyExemptions);
    }

    /** The outer loop of add: each block of the exemption in turn. */
    method AddBlocks(entries: seq<ExemptionEntry>, owner: string)
      modifies this
      ensures policyExemptions == AddEntries(old(policyExemptions), entries, owner)
      ensures policyOwners == old(policyOwners)
    {
      var i := 0;
      while i < |entries|
        invariant 0 <= i <= |entries|
        invariant policyExemptions == AddEntries(old(policyExemptions), entries[..i], owner)
        invariant policyOwners == old(policyOwners)
      {
        AddEntriesSnoc(old(policyExemptions), entries, i, owner);
        AddBlock(entries[i], owner);
        i := i + 1;
      }
      assert entries[..i] == entries;
    }

    /**
     * add: the owner's previous matchers are removed, the exemption is
     * recorded for its owner, and one owner-tagged matcher is pushed per
     * listed policy, block by block. The Policy type guarantees that every
     * listed policy is one the store holds.
     */
    method Add(exemption: Exemption)
      requires Valid()
      requires forall p :: Listed(Entries(exemption), p) ==> p in policyExemptions
      modifies this
      ensures Valid()
      ensures policyOwners == old(policyOwners)[Owner(exemption) := exemption]
      ensures policyExemptions.Keys == old(policyExemptions).Keys
      ensures forall p :: p in policyExemptions ==>
        policyExemptions[p] ==
          WithoutOwner(old(policyExemptions)[p], Owner(exemption)) + NewFor(Entries(exemption), Owner(exemption), p)
    {
      Remove(exemption);
      var owner := Owner(exemption);
      policyOwners := policyOwners[owner := exemption];
      ghost var filtered := policyExemptions;
      var entries := Entries(exemption);
      AddBlocks(entries, owner);
      AddEntriesAt(filtered, entries, owner);
      forall p, sm | p in policyExemptions && sm in policyExemptions[p]
        ensures Accounted(policyOwners, p, sm)
      {
        NewForOwned(entries, owner, p);
        if sm in WithoutOwner(old(policyExemptions)[p], owner) {
          assert Accounted(old(policyOwners), p, sm);
        }
      }
    }
  }

  /** Adding the same exemption twice leaves the store as adding it once. */
  method AddTwice(store: ExemptionStore, exemption: Exemption)
    requires store.Valid()
    requires forall p :: Listed(Entries(exemption), p) ==> p in store.policyExemptions
    modifies store
    ensures store.Valid()
    ensures store.policyOwners == old(store.policyOwners)[Owner(exemption) := exemption]
    ensures store.policyExemptions.Keys == old(store.policyExemptions).Keys
    ensures forall p :: p in store.policyExemptions ==>
      store.policyExemptions[p] ==
        WithoutOwner(old(store.policyExemptions)[p], Owner(exemption)) + NewFor(Entries(exemption), Owner(exemption), p)
  {
    var owner := Owner(exemption);
    store.Add(exemption);
    ghost var once := store.policyExemptions;
    store.Add(exemption);
    forall p | p in store.policyExemptions
      ensures store.policyExemptions[p] ==
        WithoutOwner(old(store.policyExemptions)[p], owner) + NewFor(Entries(exemption), owner, p)
    {
      NewForOwned(Entries(exemption), owner, p);
      ReAddDoesNotDuplicate(old(store.policyExemptions)[p], NewFor(Entries(exemption), owner, p), owner);
    }
  }
}
