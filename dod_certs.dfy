/**
 * Comparing the DoD certificate inventory already in the repository with
 * a freshly downloaded one. A certificate is identified by its folder
 * from `/dod/` onwards and its file name, so the base directory the
 * archive was unpacked into makes no difference.
 */
module DodCerts {
  import opened Wrappers
  import opened Strings

  /** One certificate file of the inventory. */
  datatype DoDCert = DoDCert(filepath: string, filename: string, content: string, organization: string)

  /** `{ old, new }`: a downloaded certificate and the stored one with its key but other content. */
  datatype Modified = Modified(oldCert: DoDCert, newCert: DoDCert)

  datatype CertDiff = CertDiff(added: seq<DoDCert>, removed: seq<DoDCert>, modified: seq<Modified>)

  /** The folder the certificates are unpacked into. */
  const DodMarker: string := "/dod/"

  /**
   * getKey: the folder from the first `/dod/` onwards, then `/` and the
   * file name; a folder without `/dod/` is used whole (`substring(-1)`
   * starts at 0).
   */
  function CertKey(cert: DoDCert): string
  {
    var dodIndex := IndexOf(cert.filepath, DodMarker);
    var relativePath := if dodIndex < 0 then cert.filepath else cert.filepath[dodIndex..];
    relativePath + "/" + cert.filename
  }

  /** `/dod/` does not start anywhere inside `base`, even running on into a following `/dod/`. */
  predicate NoMarkerIn(base: string)
  {
    forall j :: 0 <= j < |base| ==> !OccursAt(base + DodMarker, DodMarker, j)
  }

  /** The key of a certificate under `<base>/dod/<rest>` is `/dod/<rest>/<file name>`, whatever the base. */
  lemma CertKeyIgnoresBase(base: string, rest: string, filename: string, content: string, organization: string)
    requires NoMarkerIn(base)
    ensures CertKey(DoDCert(base + DodMarker + rest, filename, content, organization)) == DodMarker + rest + "/" + filename
  {
    var path := base + DodMarker + rest;
    assert OccursAt(path, DodMarker, |base|) by {
      assert path[|base|..|base| + 5] == DodMarker;
    }
    forall j | 0 <= j < |base|
      ensures !OccursAt(path, DodMarker, j)
    {
      var prefix := base + DodMarker;
      assert path[..|base| + 5] == prefix;
      assert path[j..j + 5] == path[..|base| + 5][j..j + 5];
      assert !OccursAt(prefix, DodMarker, j);
    }
    assert IndexOf(path, DodMarker) == |base|;
    assert path[|base|..] == DodMarker + rest;
  }

  /** The keys of a list of certificates; `Map.has` asks for membership here. */
  function KeySet(certs: seq<DoDCert>): set<string>
  {
    set c | c in certs :: CertKey(c)
  }

  /**
   * `new Map(certs.map(c => [getKey(c), c])).get(key)`: later entries
   * overwrite earlier ones, so the last certificate with that key.
   */
  function LastWithKey(certs: seq<DoDCert>, key: string): (r: Option<DoDCert>)
    ensures r.None? <==> key !in KeySet(certs)
    ensures r.Some? ==> r.value in certs && CertKey(r.value) == key
    ensures r.Some? ==> exists i :: (0 <= i < |certs| && certs[i] == r.value
                                     && forall j :: i < j < |certs| ==> CertKey(certs[j]) != key)
  {
    if |certs| == 0 then None
    else
      var last := certs[|certs| - 1];
      var init := certs[..|certs| - 1];
      assert certs == init + [last];
      assert KeySet(certs) == KeySet(init) + {CertKey(last)};
      if CertKey(last) == key then Some(last) else LastWithKey(init, key)
  }

  /**
   * The certificates whose key is not among `keys`: each such certificate
   * as often as it occurs, in the order of `certs` (see WithoutKeysAppend).
   */
  function WithoutKeys(certs: seq<DoDCert>, keys: set<string>): (r: seq<DoDCert>)
    ensures forall c :: c in r <==> c in certs && CertKey(c) !in keys
    ensures forall c :: multiset(r)[c] == if CertKey(c) in keys then 0 else multiset(certs)[c]
    ensures |r| <= |certs|
  {
    if |certs| == 0 then []
    else
      var rest := WithoutKeys(certs[1..], keys);
      assert certs == [certs[0]] + certs[1..];
      assert forall c :: c in certs <==> c == certs[0] || c in certs[1..];
      if CertKey(certs[0]) in keys then rest else [certs[0]] + rest
  }

  /** The filter works piece by piece, so it keeps the order of the certificates. */
  lemma {:induction false} WithoutKeysAppend(a: seq<DoDCert>, b: seq<DoDCert>, keys: set<string>)
    ensures WithoutKeys(a + b, keys) == WithoutKeys(a, keys) + WithoutKeys(b, keys)
  {
    if |a| == 0 {
      assert a + b == b;
    } else {
      assert (a + b)[0] == a[0];
      assert (a + b)[1..] == a[1..] + b;
      WithoutKeysAppend(a[1..], b, keys);
    }
  }

  /** A downloaded certificate counts as modified when the stored one under its key has other content. */
  predicate IsModified(existing: seq<DoDCert>, c: DoDCert)
  {
    LastWithKey(existing, CertKey(c)).Some? && LastWithKey(existing, CertKey(c)).value.content != c.content
  }

  /** The downloaded side of each pair. */
  function NewCerts(ms: seq<Modified>): (r: seq<DoDCert>)
    ensures |r| == |ms|
    ensures forall i :: 0 <= i < |ms| ==> r[i] == ms[i].newCert
  {
    if |ms| == 0 then [] else [ms[0].newCert] + NewCerts(ms[1..])
  }

  /**
   * The downloaded certificates whose stored namesake has different content,
   * each as often as it occurs, paired with the last stored certificate
   * with its key (`existingMap.get`).
   */
  function ModifiedCerts(existing: seq<DoDCert>, downloaded: seq<DoDCert>): (r: seq<Modified>)
    ensures forall m :: m in r ==>
              && m.newCert in downloaded && IsModified(existing, m.newCert)
              && m.oldCert == LastWithKey(existing, CertKey(m.newCert)).value
    ensures forall c :: c in downloaded && IsModified(existing, c)
              ==> Modified(LastWithKey(existing, CertKey(c)).value, c) in r
    ensures |r| <= |downloaded|
  {
    if |downloaded| == 0 then []
    else
      var c := downloaded[0];
      var rest := ModifiedCerts(existing, downloaded[1..]);
      var stored := LastWithKey(existing, CertKey(c));
      assert downloaded == [c] + downloaded[1..];
      assert forall d :: d in downloaded <==> d == c || d in downloaded[1..];
      if stored.Some? && stored.value.content != c.content then [Modified(stored.value, c)] + rest else rest
  }

  /** The elements of `s` that `keep` accepts, each as often as it occurs, in order. */
  function KeepIf<T(!new)>(s: seq<T>, keep: T -> bool): (r: seq<T>)
    ensures forall c :: multiset(r)[c] == if keep(c) then multiset(s)[c] else 0
  {
    if |s| == 0 then []
    else
      assert s == [s[0]] + s[1..];
      (if keep(s[0]) then [s[0]] else []) + KeepIf(s[1..], keep)
  }

  /** The new side of the modified pairs is the downloaded list filtered by IsModified. */
  lemma {:induction false} NewCertsAreModifiedDownloads(existing: seq<DoDCert>, downloaded: seq<DoDCert>)
    ensures NewCerts(ModifiedCerts(existing, downloaded)) == KeepIf(downloaded, c => IsModified(existing, c))
  {
    if |downloaded| > 0 {
      NewCertsStep(existing, downloaded);
      NewCertsAreModifiedDownloads(existing, downloaded[1..]);
    }
  }

  /** Each modified certificate is reported as often as it was downloaded, the others never. */
  lemma ModifiedCertsCount(existing: seq<DoDCert>, downloaded: seq<DoDCert>, c: DoDCert)
    ensures multiset(NewCerts(ModifiedCerts(existing, downloaded)))[c] ==
      if IsModified(existing, c) then multiset(downloaded)[c] else 0
  {
    NewCertsAreModifiedDownloads(existing, downloaded);
  }

  /** One step of ModifiedCerts, seen from the downloaded side. */
  lemma NewCertsStep(existing: seq<DoDCert>, downloaded: seq<DoDCert>)
    requires |downloaded| > 0
    ensures NewCerts(ModifiedCerts(existing, downloaded)) ==
      (if IsModified(existing, downloaded[0]) then [downloaded[0]] else [])
      + NewCerts(ModifiedCerts(existing, downloaded[1..]))
  {
    var d := downloaded[0];
    if IsModified(existing, d) {
      var m := Modified(LastWithKey(existing, CertKey(d)).value, d);
      var ms := [m] + ModifiedCerts(existing, downloaded[1..]);
      assert ModifiedCerts(existing, downloaded) == ms;
      assert ms[0] == m && ms[1..] == ModifiedCerts(existing, downloaded[1..]);
    } else {
      assert ModifiedCerts(existing, downloaded) == ModifiedCerts(existing, downloaded[1..]);
    }
  }

  /** The modified pairs, too, are found piece by piece and so in download order. */
  lemma {:induction false} ModifiedCertsAppend(existing: seq<DoDCert>, a: seq<DoDCert>, b: seq<DoDCert>)
    ensures ModifiedCerts(existing, a + b) == ModifiedCerts(existing, a) + ModifiedCerts(existing, b)
  {
    if |a| == 0 {
      assert a + b == b;
    } else {
      assert (a + b)[0] == a[0];
      assert (a + b)[1..] == a[1..] + b;
      ModifiedCertsAppend(existing, a[1..], b);
    }
  }

  /**
   * diffDoDCerts: added are the downloaded certificates whose key is not
   * stored, removed the stored ones whose key was not downloaded, and
   * modified the downloaded ones whose stored namesake (the last with
   * that key) has other content.
   */
  function DiffDoDCerts(existing: seq<DoDCert>, downloaded: seq<DoDCert>): (r: CertDiff)
    ensures forall c :: c in r.added <==> c in downloaded && CertKey(c) !in KeySet(existing)
    ensures forall c :: c in r.removed <==> c in existing && CertKey(c) !in KeySet(downloaded)
  {
    CertDiff(WithoutKeys(downloaded, KeySet(existing)),
             WithoutKeys(existing, KeySet(downloaded)),
             ModifiedCerts(existing, downloaded))
  }

  /** A certificate is counted as added or as matched, never both, and never modified when added. */
  lemma AddedNotModified(existing: seq<DoDCert>, downloaded: seq<DoDCert>, m: Modified)
    requires m in DiffDoDCerts(existing, downloaded).modified
    ensures m.newCert !in DiffDoDCerts(existing, downloaded).added
    ensures m.oldCert !in DiffDoDCerts(existing, downloaded).removed
  {
    assert CertKey(m.oldCert) in KeySet(existing);
    assert CertKey(m.newCert) in KeySet(downloaded);
  }

  /** Within a list, certificates that share a key share their content. */
  predicate KeysIdentifyContent(certs: seq<DoDCert>)
  {
    forall i, j :: 0 <= i < |certs| && 0 <= j < |certs| && CertKey(certs[i]) == CertKey(certs[j]) ==>
      certs[i].content == certs[j].content
  }

  /**
   * Two inventories that agree certificate by certificate on key and
   * content (identical ones, or ones unpacked under different base
   * directories) have nothing added, removed or modified.
   */
  lemma SameInventoryNoDiff(existing: seq<DoDCert>, downloaded: seq<DoDCert>)
    requires |existing| == |downloaded|
    requires forall i :: 0 <= i < |existing| ==> CertKey(existing[i]) == CertKey(downloaded[i]) && existing[i].content == downloaded[i].content
    requires KeysIdentifyContent(existing)
    ensures DiffDoDCerts(existing, downloaded) == CertDiff([], [], [])
  {
    assert KeySet(existing) == KeySet(downloaded) by {
      forall k | k in KeySet(existing) ensures k in KeySet(downloaded) {
        var c :| c in existing && CertKey(c) == k;
        var i :| 0 <= i < |existing| && existing[i] == c;
        assert downloaded[i] in downloaded;
      }
      forall k | k in KeySet(downloaded) ensures k in KeySet(existing) {
        var c :| c in downloaded && CertKey(c) == k;
        var i :| 0 <= i < |downloaded| && downloaded[i] == c;
        assert existing[i] in existing;
      }
    }
    WithoutAllKeys(downloaded, KeySet(existing));
    WithoutAllKeys(existing, KeySet(downloaded));
    forall c | c in downloaded && LastWithKey(existing, CertKey(c)).Some?
      ensures LastWithKey(existing, CertKey(c)).value.content == c.content
    {
      var e := LastWithKey(existing, CertKey(c)).value;
      var i :| 0 <= i < |downloaded| && downloaded[i] == c;
      var j :| 0 <= j < |existing| && existing[j] == e;
      assert CertKey(existing[i]) == CertKey(existing[j]);
    }
    NothingModified(existing, downloaded);
  }

  /** Nothing is left when every key is among those taken out. */
  lemma {:induction false} WithoutAllKeys(certs: seq<DoDCert>, keys: set<string>)
    requires KeySet(certs) <= keys
    ensures WithoutKeys(certs, keys) == []
  {
    if |certs| > 0 {
      assert certs[0] in certs;
      assert KeySet(certs[1..]) <= KeySet(certs);
      WithoutAllKeys(certs[1..], keys);
    }
  }

  /** Nothing is modified when every downloaded certificate matches the content stored under its key. */
  lemma {:induction false} NothingModified(existing: seq<DoDCert>, downloaded: seq<DoDCert>)
    requires forall c :: c in downloaded && LastWithKey(existing, CertKey(c)).Some? ==> LastWithKey(existing, CertKey(c)).value.content == c.content
    ensures ModifiedCerts(existing, downloaded) == []
  {
    if |downloaded| > 0 {
      assert downloaded[0] in downloaded;
      NothingModified(existing, downloaded[1..]);
    }
  }

  /**
   * Downloading the stored inventory again (under any base directory) plus
   * one certificate under a new key adds exactly that certificate, and
   * removes and modifies nothing.
   */
  lemma OneNewCertificateAdded(existing: seq<DoDCert>, kept: seq<DoDCert>, c: DoDCert)
    requires |kept| == |existing|
    requires forall i :: 0 <= i < |existing| ==> CertKey(existing[i]) == CertKey(kept[i]) && existing[i].content == kept[i].content
    requires KeysIdentifyContent(existing)
    requires CertKey(c) !in KeySet(existing)
    ensures DiffDoDCerts(existing, kept + [c]) == CertDiff([c], [], [])
  {
    SameInventoryNoDiff(existing, kept);
    SameKeys(existing, kept);
    assert WithoutKeys(kept + [c], KeySet(existing)) == [c] by {
      WithoutKeysAppend(kept, [c], KeySet(existing));
      WithoutAllKeys(kept, KeySet(existing));
    }
    assert WithoutKeys(existing, KeySet(kept + [c])) == [] by {
      KeySetAppend(kept, [c]);
      WithoutAllKeys(existing, KeySet(kept + [c]));
    }
    assert ModifiedCerts(existing, kept + [c]) == [] by {
      ModifiedCertsAppend(existing, kept, [c]);
      assert LastWithKey(existing, CertKey(c)).None?;
    }
  }

  /** Inventories that agree certificate by certificate on the key have the same keys. */
  lemma SameKeys(existing: seq<DoDCert>, kept: seq<DoDCert>)
    requires |kept| == |existing|
    requires forall i :: 0 <= i < |existing| ==> CertKey(existing[i]) == CertKey(kept[i])
    ensures KeySet(kept) == KeySet(existing)
  {
    forall k | k in KeySet(existing) ensures k in KeySet(kept) {
      var e :| e in existing && CertKey(e) == k;
      var i :| 0 <= i < |existing| && existing[i] == e;
      assert kept[i] in kept;
    }
    forall k | k in KeySet(kept) ensures k in KeySet(existing) {
      var e :| e in kept && CertKey(e) == k;
      var i :| 0 <= i < |kept| && kept[i] == e;
      assert existing[i] in existing;
    }
  }

  lemma KeySetAppend(a: seq<DoDCert>, b: seq<DoDCert>)
    ensures KeySet(a + b) == KeySet(a) + KeySet(b)
  {
    assert forall c :: c in a + b <==> c in a || c in b;
  }

  /** A stored certificate whose key nobody downloads does not change what the others are compared with. */
  lemma {:induction false} ModifiedCertsIgnoreOtherKey(existing: seq<DoDCert>, e: DoDCert, downloaded: seq<DoDCert>)
    requires CertKey(e) !in KeySet(downloaded)
    ensures ModifiedCerts(existing + [e], downloaded) == ModifiedCerts(existing, downloaded)
  {
    if |downloaded| > 0 {
      var d := downloaded[0];
      assert d in downloaded;
      assert (existing + [e])[..|existing + [e]| - 1] == existing;
      assert LastWithKey(existing + [e], CertKey(d)) == LastWithKey(existing, CertKey(d));
      assert KeySet(downloaded[1..]) <= KeySet(downloaded);
      ModifiedCertsIgnoreOtherKey(existing, e, downloaded[1..]);
    }
  }

  /**
   * The stored inventory plus one certificate under a key that is no longer
   * downloaded: exactly that certificate is removed.
   */
  lemma OneCertificateRemoved(existing: seq<DoDCert>, kept: seq<DoDCert>, e: DoDCert)
    requires |kept| == |existing|
    requires forall i :: 0 <= i < |existing| ==> CertKey(existing[i]) == CertKey(kept[i]) && existing[i].content == kept[i].content
    requires KeysIdentifyContent(existing)
    requires CertKey(e) !in KeySet(existing)
    ensures DiffDoDCerts(existing + [e], kept) == CertDiff([], [e], [])
  {
    SameInventoryNoDiff(existing, kept);
    SameKeys(existing, kept);
    assert WithoutKeys(kept, KeySet(existing + [e])) == [] by {
      KeySetAppend(existing, [e]);
      WithoutAllKeys(kept, KeySet(existing + [e]));
    }
    assert WithoutKeys(existing + [e], KeySet(kept)) == [e] by {
      WithoutKeysAppend(existing, [e], KeySet(kept));
      WithoutAllKeys(existing, KeySet(kept));
    }
    ModifiedCertsIgnoreOtherKey(existing, e, kept);
  }

  /**
   * The stored inventory plus one certificate, downloaded again with other
   * content: exactly that pair is modified, nothing added or removed.
   */
  lemma OneCertificateModified(existing: seq<DoDCert>, kept: seq<DoDCert>, e: DoDCert, n: DoDCert)
    requires |kept| == |existing|
    requires forall i :: 0 <= i < |existing| ==> CertKey(existing[i]) == CertKey(kept[i]) && existing[i].content == kept[i].content
    requires KeysIdentifyContent(existing)
    requires CertKey(e) !in KeySet(existing)
    requires CertKey(n) == CertKey(e) && n.content != e.content
    ensures DiffDoDCerts(existing + [e], kept + [n]) == CertDiff([], [], [Modified(e, n)])
  {
    assert KeySet(existing + [e]) == KeySet(kept + [n]) by {
      SameKeys(existing, kept);
      KeySetAppend(existing, [e]);
      KeySetAppend(kept, [n]);
    }
    WithoutAllKeys(kept + [n], KeySet(existing + [e]));
    WithoutAllKeys(existing + [e], KeySet(kept + [n]));
    assert ModifiedCerts(existing + [e], kept + [n]) == [Modified(e, n)] by {
      assert ModifiedCerts(existing + [e], kept) == [] by {
        SameInventoryNoDiff(existing, kept);
        SameKeys(existing, kept);
        ModifiedCertsIgnoreOtherKey(existing, e, kept);
      }
      ModifiedCertsAppend(existing + [e], kept, [n]);
      LastOneModified(existing, e, n);
    }
  }

  /** One download under the key of the last stored certificate, with other content. */
  lemma LastOneModified(existing: seq<DoDCert>, e: DoDCert, n: DoDCert)
    requires CertKey(n) == CertKey(e) && n.content != e.content
    ensures ModifiedCerts(existing + [e], [n]) == [Modified(e, n)]
  {
    assert (existing + [e])[|existing + [e]| - 1] == e;
    assert LastWithKey(existing + [e], CertKey(n)) == Some(e);
    assert [n][1..] == [];
  }

  /** Comparing an inventory with itself finds nothing. */
  lemma IdenticalNoDiff(certs: seq<DoDCert>)
    requires KeysIdentifyContent(certs)
    ensures DiffDoDCerts(certs, certs) == CertDiff([], [], [])
  {
    SameInventoryNoDiff(certs, certs);
  }
}
