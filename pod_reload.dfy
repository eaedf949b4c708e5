/**
 * Pod reload on Secret and ConfigMap changes: the `uds.dev/pod-reload-selector`
 * annotation parser and the checksum cache that decides whether an update
 * changed the data.
 */
module PodReload {
  import opened Wrappers
  import opened Strings
  import opened AssocLists
  import opened Crd


  // ---------------------------------------------------------------------
  // parseSelectorString
  // ---------------------------------------------------------------------

  /**
   * One comma-separated piece: `[key, val] = pair.trim().split("=")`; both
   * must be non-empty, and anything after a second '=' is ignored. The entry
   * stored is the trimmed key and the trimmed value.
   */
  function ParsePair(pair: string): Option<(string, string)>
  {
    var parts := Split(JsTrim(pair), '=');
    var key := parts[0];
    var val := if |parts| >= 2 then Some(parts[1]) else None;
    if key != "" && Truthy(val) then Some((JsTrim(key), JsTrim(val.value))) else None
  }

  /** What ParsePair makes of each pair, in order. */
  function PairEntries(pairs: seq<string>): (r: seq<Option<(string, string)>>)
    ensures |r| == |pairs|
  {
    seq(|pairs|, i requires 0 <= i < |pairs| => ParsePair(pairs[i]))
  }

  /** What the loop yields from the parsed `entries` on, starting from the selector `acc`. */
  function Fill(entries: seq<Option<(string, string)>>, acc: Selector): Option<Selector>
  {
    if entries == [] then Some(acc)
    else
      match entries[0]
      case None => None
      case Some(entry) => Fill(entries[1..], Put(acc, entry.0, entry.1))
  }

  /** parseSelectorString as a function: the selector, or None for a malformed or empty one. */
  function ParseSelector(value: string): Option<Selector>
  {
    match Fill(PairEntries(Split(value, ',')), [])
    case None => None
    case Some(m) => if |m| > 0 then Some(m) else None
  }

  /** The loop from index `i` on, over the parsed entries, starting from `acc`. */
  function FillFrom(entries: seq<Option<(string, string)>>, i: nat, acc: Selector): Option<Selector>
    requires i <= |entries|
    decreases |entries| - i
  {
    if i == |entries| then Some(acc)
    else
      match entries[i]
      case None => None
      case Some(entry) => FillFrom(entries, i + 1, Put(acc, entry.0, entry.1))
  }

  /** Walking by index is walking the suffix. */
  lemma {:induction false} FillFromIsFill(entries: seq<Option<(string, string)>>, i: nat, acc: Selector)
    requires i <= |entries|
    ensures FillFrom(entries, i, acc) == Fill(entries[i..], acc)
    decreases |entries| - i
  {
    if i < |entries| {
      FillStep(entries, i, acc);
      if entries[i].Some? {
        FillFromIsFill(entries, i + 1, Put(acc, entries[i].value.0, entries[i].value.1));
      }
    }
  }

  /** parseSelectorString: one pass over the comma-separated pairs, filling the result. */
  method ParseSelectorString(value: string) returns (r: Option<Selector>)
    ensures r == ParseSelector(value)
  {
    var pairs := Split(value, ',');
    ghost var entries := PairEntries(pairs);
    FillFromIsFill(entries, 0, []);
    assert entries[0..] == entries;
    var result: Selector := [];
    var i := 0;
    while i < |pairs|
      invariant 0 <= i <= |pairs| == |entries|
      invariant FillFrom(entries, i, result) == Fill(entries, [])
    {
      var entry := ParsePair(pairs[i]);
      assert entry == entries[i];
      if entry.None? {
        return None;
      }
      result := Put(result, entry.value.0, entry.value.1);
      i := i + 1;
    }
    return if |result| > 0 then Some(result) else None;
  }

  /** One turn of the loop: the entry at `i` ends the parse or is stored. */
  lemma FillStep(entries: seq<Option<(string, string)>>, i: nat, acc: Selector)
    requires i < |entries|
    ensures Fill(entries[i..], acc) ==
      if entries[i].None? then None else Fill(entries[i + 1..], Put(acc, entries[i].value.0, entries[i].value.1))
  {
    assert entries[i..][0] == entries[i] && entries[i..][1..] == entries[i + 1..];
  }

  /** A malformed pair anywhere makes the result None, whatever the others are. */
  lemma {:induction false} MalformedEntryFrom(entries: seq<Option<(string, string)>>, acc: Selector, i: nat)
    requires i < |entries| && entries[i].None?
    ensures Fill(entries, acc) == None
    decreases i
  {
    if i > 0 {
      assert entries[1..][i - 1] == entries[i];
    }
    match entries[0]
    case None =>
    case Some(entry) =>
      MalformedEntryFrom(entries[1..], Put(acc, entry.0, entry.1), i - 1);
  }

  /** A pair lacking a key or a value makes the whole selector null. */
  lemma MalformedPairRejects(value: string, i: nat)
    requires i < |Split(value, ',')| && ParsePair(Split(value, ',')[i]).None?
    ensures ParseSelector(value) == None
  {
    MalformedEntryFrom(PairEntries(Split(value, ',')), [], i);
  }

  /**
   * When every entry is well formed the loop ends with distinct keys, each
   * holding the value of the last entry with that key.
   */
  lemma {:induction false} WellFormedEntriesFrom(entries: seq<Option<(string, string)>>, acc: Selector)
    requires DistinctKeys(acc)
    requires forall i :: 0 <= i < |entries| ==> entries[i].Some?
    ensures Fill(entries, acc).Some?
    ensures DistinctKeys(Fill(entries, acc).value)
    ensures forall k :: Get(Fill(entries, acc).value, k) == LastValue(entries, acc, k)
    decreases |entries|
  {
    if entries != [] {
      var entry := entries[0].value;
      var acc' := Put(acc, entry.0, entry.1);
      PutDistinct(acc, entry.0, entry.1);
      assert forall i :: 0 <= i < |entries[1..]| ==> entries[1..][i].Some? by {
        forall i | 0 <= i < |entries[1..]| ensures entries[1..][i].Some? {
          assert entries[1..][i] == entries[i + 1];
        }
      }
      WellFormedEntriesFrom(entries[1..], acc');
      forall k ensures LastValue(entries[1..], acc', k) == LastValue(entries, acc, k) {
        LastValueFrom(entries, acc, k);
      }
    }
  }

  /** The value `k` ends up with: that of the last entry with key `k`, else its value in `acc`. */
  function LastValue(entries: seq<Option<(string, string)>>, acc: Selector, k: string): Option<string>
  {
    if entries == [] then Get(acc, k)
    else
      var later := LastValue(entries[1..], [], k);
      if later.Some? then later
      else
        match entries[0]
        case Some(entry) => if entry.0 == k then Some(entry.1) else Get(acc, k)
        case None => Get(acc, k)
  }

  /** Stepping over the first entry moves it into the starting selector. */
  lemma LastValueFrom(entries: seq<Option<(string, string)>>, acc: Selector, k: string)
    requires entries != [] && entries[0].Some?
    ensures var entry := entries[0].value;
      LastValue(entries[1..], Put(acc, entry.0, entry.1), k) == LastValue(entries, acc, k)
  {
    var entry := entries[0].value;
    PutGet(acc, entry.0, entry.1, k);
    LastValueSplit(entries[1..], Put(acc, entry.0, entry.1), k);
  }

  /** The starting selector matters only for keys no entry sets. */
  lemma {:induction false} LastValueSplit(entries: seq<Option<(string, string)>>, acc: Selector, k: string)
    ensures LastValue(entries, acc, k) ==
      (if LastValue(entries, [], k).Some? then LastValue(entries, [], k) else Get(acc, k))
    decreases |entries|
  {
    if entries != [] {
      LastValueSplit(entries[1..], [], k);
    }
  }

  /** With every pair well formed the selector is non-null, has distinct keys and keeps the last value of each. */
  lemma WellFormedSelector(value: string)
    requires forall i :: 0 <= i < |Split(value, ',')| ==> ParsePair(Split(value, ',')[i]).Some?
    ensures ParseSelector(value).Some?
    ensures DistinctKeys(ParseSelector(value).value)
    ensures forall k :: Get(ParseSelector(value).value, k) == LastValue(PairEntries(Split(value, ',')), [], k)
  {
    var pairs := Split(value, ',');
    var entries := PairEntries(pairs);
    assert forall i :: 0 <= i < |entries| ==> entries[i] == ParsePair(pairs[i]);
    WellFormedEntriesFrom(entries, []);
    FirstKeyKept(entries);
  }

  /** The key of the first entry survives, so a parse of well-formed entries is never empty. */
  lemma FirstKeyKept(entries: seq<Option<(string, string)>>)
    requires |entries| > 0
    requires forall i :: 0 <= i < |entries| ==> entries[i].Some?
    ensures Fill(entries, []).Some? && |Fill(entries, []).value| > 0
  {
    WellFormedEntriesFrom(entries, []);
    var k := entries[0].value.0;
    assert LastValue(entries, [], k).Some?;
    assert Get(Fill(entries, []).value, k).Some?;
  }

  /**
   * The selector is null iff some pair lacks a key or a value; otherwise its
   * keys are distinct and each key holds the value of the last pair naming it.
   */
  lemma ParseSelectorIff(value: string)
    ensures var pairs := Split(value, ',');
      ParseSelector(value).None? <==> exists i :: 0 <= i < |pairs| && ParsePair(pairs[i]).None?
    ensures ParseSelector(value).Some? ==>
      && DistinctKeys(ParseSelector(value).value)
      && forall k :: Get(ParseSelector(value).value, k) == LastValue(PairEntries(Split(value, ',')), [], k)
  {
    var pairs := Split(value, ',');
    if i :| 0 <= i < |pairs| && ParsePair(pairs[i]).None? {
      MalformedPairRejects(value, i);
    } else {
      WellFormedSelector(value);
    }
  }

  // ---------------------------------------------------------------------
  // The checksum cache
  // ---------------------------------------------------------------------

  /** The annotation that names an explicit pod selector. */
  const SelectorAnnotation: string := "uds.dev/pod-reload-selector"

  /** The cache key `${namespace}/${name}`. */
  function CacheKey(namespace: string, name: string): (r: string)
    ensures |r| == |namespace| + 1 + |name|
    ensures r[|namespace|] == '/'
  {
    namespace + "/" + name
  }

  /** Namespaces carry no '/', so distinct resources never share a key. */
  lemma CacheKeyInjective(ns1: string, n1: string, ns2: string, n2: string)
    requires '/' !in ns1 && '/' !in ns2
    requires CacheKey(ns1, n1) == CacheKey(ns2, n2)
    ensures ns1 == ns2 && n1 == n2
  {
    var k := CacheKey(ns1, n1);
    if |ns1| != |ns2| {
      assert false;
    }
    assert ns1 == k[..|ns1|] == ns2;
    assert n1 == k[|ns1| + 1..] == n2;
  }

  /** What happens after the cache step of an update. */
  datatype ReloadPlan =
    /** Exit early: no reload. */
    | NoReload
    /** The annotation is present but does not parse: an error is logged and nothing is reloaded. */
    | InvalidSelector(annotation: string)
    /** Reload the pods carrying every label of the selector. */
    | ReloadSelected(selector: Selector)
    /** Reload the pods found to consume the resource. */
    | ReloadConsumers

  /** The strategy once the data is known to have changed. */
  function PlanFor(annotations: map<string, string>): (r: ReloadPlan)
    ensures r != NoReload
    ensures !Truthy(if SelectorAnnotation in annotations then Some(annotations[SelectorAnnotation]) else None)
      <==> r == ReloadConsumers
    ensures r.ReloadSelected? ==> Some(r.selector) == ParseSelector(annotations[SelectorAnnotation])
    ensures SelectorAnnotation in annotations && annotations[SelectorAnnotation] != "" ==>
      (ParseSelector(annotations[SelectorAnnotation]).Some? <==> r.ReloadSelected?)
      && (ParseSelector(annotations[SelectorAnnotation]).None? <==>
          r == InvalidSelector(annotations[SelectorAnnotation]))
  {
    if SelectorAnnotation in annotations && annotations[SelectorAnnotation] != "" then
      var annotation := annotations[SelectorAnnotation];
      match ParseSelector(annotation)
      case None => InvalidSelector(annotation)
      case Some(s) => ReloadSelected(s)
    else ReloadConsumers
  }

  /** A reload is considered iff a non-empty previous checksum differs from the current one. */
  predicate Changed(previous: Option<string>, current: string)
  {
    Truthy(previous) && previous.value != current
  }

  /** One of the two checksum caches (Secrets, ConfigMaps): resource key to data checksum. */
  class ChecksumCache {
    var entries: map<string, string>

    constructor ()
      ensures entries == map[]
    {
      entries := map[];
    }

    /**
     * The cache step of handleResourceUpdate. `checksum` is the SHA-256 of the
     * resource's data. A resource without a name or namespace changes nothing;
     * otherwise the checksum is stored whatever happens next, and the plan is
     * NoReload unless the stored checksum was present and different.
     */
    method HandleResourceUpdate(name: Option<string>, namespace: Option<string>, checksum: string,
                                annotations: map<string, string>)
      returns (plan: ReloadPlan)
      modifies this
      ensures !Truthy(name) || !Truthy(namespace) ==> entries == old(entries) && plan == NoReload
      ensures Truthy(name) && Truthy(namespace) ==>
        var key := CacheKey(namespace.value, name.value);
        var previous := if key in old(entries) then Some(old(entries)[key]) else None;
        && entries == old(entries)[key := checksum]
        && plan == (if Changed(previous, checksum) then PlanFor(annotations) else NoReload)
    {
      if !Truthy(name) || !Truthy(namespace) {
        return NoReload;
      }
      var key := CacheKey(namespace.value, name.value);
      var previous := if key in entries then Some(entries[key]) else None;
      entries := entries[key := checksum];
      if !Truthy(previous) || previous.value == checksum {
        return NoReload;
      }
      plan := PlanFor(annotations);
    }

    /** handleResourceDelete: the `namespace/name` entry goes, every other entry stays. */
    method HandleResourceDelete(name: Option<string>, namespace: Option<string>)
      modifies this
      ensures !Truthy(name) || !Truthy(namespace) ==> entries == old(entries)
      ensures Truthy(name) && Truthy(namespace) ==>
        entries == old(entries) - {CacheKey(namespace.value, name.value)}
    {
      if !Truthy(name) || !Truthy(namespace) {
        return;
      }
      var key := CacheKey(namespace.value, name.value);
      entries := entries - {key};
    }
  }

  /** An update that repeats the stored data never reloads, and leaves the cache as it was. */
  method RepeatedUpdate(cache: ChecksumCache, name: string, namespace: string, checksum: string,
                        annotations: map<string, string>)
    returns (first: ReloadPlan, second: ReloadPlan)
    requires name != "" && namespace != ""
    modifies cache
    ensures second == NoReload
    ensures cache.entries == old(cache.entries)[CacheKey(namespace, name) := checksum]
  {
    first := cache.HandleResourceUpdate(Some(name), Some(namespace), checksum, annotations);
    second := cache.HandleResourceUpdate(Some(name), Some(namespace), checksum, annotations);
  }

  /** After a delete, the next update of that resource is a first sighting and never reloads. */
  method DeleteThenUpdate(cache: ChecksumCache, name: string, namespace: string, checksum: string,
                          annotations: map<string, string>)
    returns (plan: ReloadPlan)
    requires name != "" && namespace != ""
    modifies cache
    ensures plan == NoReload
    ensures cache.entries == (old(cache.entries) - {CacheKey(namespace, name)})[CacheKey(namespace, name) := checksum]
  {
    cache.HandleResourceDelete(Some(name), Some(namespace));
    plan := cache.HandleResourceUpdate(Some(name), Some(namespace), checksum, annotations);
  }
}
