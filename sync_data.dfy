/** The data sync script (scripts/sync-data.ts) without its storage I/O: the
    object map with its defaults, the `gates_analysis` entry derived next to
    `headline`, the manifest URLs and the six-hour expiry. */
module SyncData {
  import opened Wrappers
  import opened Seqs
  import opened Strings

  // ----- ordered records -----

  /** A `Record<string, string>` as its entries in insertion order, which is
      the order `Object.keys` and `Object.entries` visit them. */
  type Entries = seq<(string, string)>

  function Keys(e: Entries): (ks: seq<string>)
    ensures |ks| == |e|
    ensures forall i :: 0 <= i < |e| ==> ks[i] == e[i].0
  {
    if e == [] then [] else Keys(DropLast(e)) + [Last(e).0]
  }

  /** A record never holds a key twice. */
  predicate DistinctKeys(e: Entries)
  {
    forall i, j :: 0 <= i < j < |e| ==> e[i].0 != e[j].0
  }

  /** `record[key]`: `None` for `undefined`. */
  function Get(e: Entries, key: string): (r: Option<string>)
    ensures r.None? <==> key !in Keys(e)
    ensures r.Some? ==> exists i :: 0 <= i < |e| && e[i] == (key, r.value)
  {
    if e == [] then None
    else if Last(e).0 == key then Some(Last(e).1)
    else
      var r := Get(DropLast(e), key);
      assert Keys(e) == Keys(DropLast(e)) + [Last(e).0];
      r
  }

  /** In a record without repeated keys, an entry's key reads its value. */
  lemma GetAt(e: Entries, i: nat)
    requires DistinctKeys(e) && i < |e|
    ensures Get(e, e[i].0) == Some(e[i].1)
  {
    assert Keys(e)[i] == e[i].0;
    var r := Get(e, e[i].0);
    var j :| 0 <= j < |e| && e[j] == (e[i].0, r.value);
  }

  /** The place of `key` in the record. */
  function KeyIndex(e: Entries, key: string): (i: nat)
    requires key in Keys(e)
    ensures i < |e| && e[i].0 == key
  {
    if e[0].0 == key then 0
    else
      assert Keys(e[1..]) == Keys(e)[1..];
      1 + KeyIndex(e[1..], key)
  }

  /** `record[key] = value`: an existing key keeps its place, a new key is
      added at the end. */
  function Put(e: Entries, key: string, value: string): Entries
  {
    if key in Keys(e) then e[KeyIndex(e, key) := (key, value)] else e + [(key, value)]
  }

  /** After `record[key] = value` the key reads `value`, every other key
      reads as before, the keys are the old ones plus `key` (at the end
      when it is new), and the record still holds no key twice. */
  lemma PutSpec(e: Entries, key: string, value: string, other: string)
    requires DistinctKeys(e)
    ensures var r := Put(e, key, value);
      && Get(r, key) == Some(value)
      && (other != key ==> Get(r, other) == Get(e, other))
      && (key in Keys(e) ==> Keys(r) == Keys(e))
      && (key !in Keys(e) ==> Keys(r) == Keys(e) + [key])
      && DistinctKeys(r)
  {
    var r := Put(e, key, value);
    if key in Keys(e) {
      var k := KeyIndex(e, key);
      assert Keys(r) == Keys(e);
      forall i, j | 0 <= i < j < |r| ensures r[i].0 != r[j].0 {
        assert r[i].0 == e[i].0 && r[j].0 == e[j].0;
      }
      GetAt(r, k);
      if other in Keys(e) && other != key {
        var o :| 0 <= o < |e| && Keys(e)[o] == other;
        GetAt(e, o);
        GetAt(r, o);
      }
    } else {
      assert Keys(r) == Keys(e) + [key];
      forall i, j | 0 <= i < j < |r| ensures r[i].0 != r[j].0 {
        if j == |e| { assert Keys(e)[i] == r[i].0; }
      }
      GetAt(r, |e|);
      if other in Keys(e) {
        var o :| 0 <= o < |e| && Keys(e)[o] == other;
        GetAt(e, o);
        GetAt(r, o);
      }
    }
  }

  // ----- the object map -----

  const GatesAnalysisKey: string := "gates_analysis"
  const HeadlineKey: string := "headline"
  const GatesAnalysisFile: string := "gates_analysis.json"

  /** The map used when SIGNED_OBJECT_MAP is not set. */
  const DefaultObjects: Entries := [
    ("headline", "prod/exports/headline.json"),
    ("airline_breakdown", "prod/exports/airline_breakdown.json"),
    ("tops", "prod/exports/tops.json"),
    ("bucket_distribution", "prod/exports/bucket_distribution.json"),
    ("daily_status", "prod/exports/daily_status.json"),
    ("routes_metrics", "prod/exports/routes_metrics.json")]

  /** A value as a JavaScript condition sees it: present and not "". */
  predicate Truthy(v: Option<string>)
  {
    v.Some? && v.value != ""
  }

  /** The file `name` in the folder of `path`: `path` through its last
      "/" followed by `name`, or `name` alone when `path` has no "/". */
  function Sibling(path: string, name: string): string
  {
    var lastSlash := LastIndexOf(path, '/');
    if lastSlash >= 0 then path[..lastSlash + 1] + name else name
  }

  /** The path of `gates_analysis`, next to `headline`. */
  function GatesPath(headlinePath: string): string
  {
    Sibling(headlinePath, GatesAnalysisFile)
  }

  /** A sibling lies in the same folder: both paths have their last "/" at
      the same place and agree up to it, and the sibling names `name`
      after it. */
  lemma SiblingSpec(path: string, name: string)
    requires '/' !in name
    ensures var p := Sibling(path, name);
      var cut := LastIndexOf(path, '/') + 1;
      && LastIndexOf(p, '/') == LastIndexOf(path, '/')
      && p == path[..cut] + name
      && ('/' !in path ==> p == name)
  {
    var i := LastIndexOf(path, '/');
    if i >= 0 {
      SiblingInFolder(path, name, i);
    } else {
      SiblingWithoutFolder(path, name);
    }
  }

  lemma SiblingInFolder(path: string, name: string, i: int)
    requires '/' !in name
    requires i == LastIndexOf(path, '/') && i >= 0
    ensures Sibling(path, name) == path[..i + 1] + name
    ensures LastIndexOf(path[..i + 1] + name, '/') == i
  {
    var folder := path[..i + 1];
    assert Last(folder) == '/';
    assert LastIndexOf(folder, '/') == i;
    LastIndexOfAppend(folder, name, '/');
  }

  lemma SiblingWithoutFolder(path: string, name: string)
    requires '/' !in name
    requires LastIndexOf(path, '/') == -1
    ensures Sibling(path, name) == path[..0] + name == name
    ensures LastIndexOf(name, '/') == -1
    ensures '/' !in path
  {
    LastIndexOfAppend([], name, '/');
    assert [] + name == name;
  }

  /** The derived `gates_analysis` sits in the folder of `headline` and is
      just "gates_analysis.json" when `headline` has no folder. */
  lemma GatesPathSpec(headlinePath: string)
    ensures var p := GatesPath(headlinePath);
      var cut := LastIndexOf(headlinePath, '/') + 1;
      && LastIndexOf(p, '/') == LastIndexOf(headlinePath, '/')
      && p == headlinePath[..cut] + GatesAnalysisFile
      && ('/' !in headlinePath ==> p == GatesAnalysisFile)
  {
    FileHasNoSlash();
    SiblingSpec(headlinePath, GatesAnalysisFile);
  }

  lemma FileHasNoSlash()
    ensures '/' !in GatesAnalysisFile
  {
  }

  /** Appending text without `c` leaves the last `c` where it was. */
  lemma {:induction false} LastIndexOfAppend(s: string, t: string, c: char)
    requires c !in t
    ensures LastIndexOf(s + t, c) == LastIndexOf(s, c)
    decreases |t|
  {
    if t != [] {
      assert DropLast(s + t) == s + DropLast(t);
      assert Last(s + t) == Last(t) && Last(t) in t;
      LastIndexOfAppend(s, DropLast(t), c);
    } else {
      assert s + t == s;
    }
  }

  /** A headline file `name` in `folder` gives `gates_analysis.json` in the
      same folder, so "prod/exports/headline.json" gives
      "prod/exports/gates_analysis.json". */
  lemma GatesPathInFolder(folder: string, name: string)
    requires folder != [] && Last(folder) == '/' && '/' !in name
    ensures GatesPath(folder + name) == folder + GatesAnalysisFile
  {
    var h := folder + name;
    var i := |folder| - 1;
    assert LastIndexOf(folder, '/') == i;
    LastIndexOfAppend(folder, name, '/');
    FileHasNoSlash();
    SiblingInFolder(h, GatesAnalysisFile, i);
    assert h[..i + 1] == folder;
  }

  /** `objects`, which the script changes in place. */
  class ObjectMap {
    var entries: Entries

    /** `rawMap ? JSON.parse(rawMap) : { ... }`; `signedMap` is the parsed
        SIGNED_OBJECT_MAP, `None` when it is unset or empty. */
    constructor (signedMap: Option<Entries>)
      ensures entries == signedMap.GetOr(DefaultObjects)
    {
      entries := signedMap.GetOr(DefaultObjects);
    }

    function Lookup(key: string): Option<string>
      reads this
    {
      Get(entries, key)
    }

    /** The autodetection: a `gates_analysis` entry is written only when
        that entry is falsy and `headline` is truthy, and then it holds
        the path next to `headline`; otherwise nothing changes. */
    method DeriveGatesAnalysis()
      modifies this
      ensures Truthy(old(Lookup(GatesAnalysisKey))) || !Truthy(old(Lookup(HeadlineKey))) ==> entries == old(entries)
      ensures !Truthy(old(Lookup(GatesAnalysisKey))) && Truthy(old(Lookup(HeadlineKey))) ==>
        entries == Put(old(entries), GatesAnalysisKey, GatesPath(old(Lookup(HeadlineKey)).value))
    {
      var gates := Get(entries, GatesAnalysisKey);
      var headline := Get(entries, HeadlineKey);
      if !Truthy(gates) && Truthy(headline) {
        entries := Put(entries, GatesAnalysisKey, GatesPath(headline.value));
      }
    }
  }

  // ----- the manifest -----

  /** The URL the front end reads for `key`. */
  function LocalUrl(key: string): string
  {
    "./data/" + key + ".json"
  }

  /** The reference table: every entry's key with its local URL, in order. */
  function UrlsFor(objects: Entries): (r: Entries)
    ensures |r| == |objects|
    ensures forall i :: 0 <= i < |r| ==> r[i] == (objects[i].0, LocalUrl(objects[i].0))
  {
    if objects == [] then [] else UrlsFor(DropLast(objects)) + [(Last(objects).0, LocalUrl(Last(objects).0))]
  }

  /** `manifestUrls` filled by the loop over `Object.keys(objects)`. */
  method ManifestUrls(objects: Entries) returns (urls: Entries)
    requires DistinctKeys(objects)
    ensures urls == UrlsFor(objects)
  {
    urls := [];
    var keys := Keys(objects);
    for i := 0 to |keys|
      invariant urls == UrlsFor(objects[..i])
    {
      assert DropLast(objects[..i + 1]) == objects[..i];
      assert Keys(urls) == keys[..i];
      urls := Put(urls, keys[i], LocalUrl(keys[i]));
    }
    assert objects[..|keys|] == objects;
  }

  /** `manifest.urls` has exactly the keys of the object map, in the same
      order, and reads "./data/<key>.json" for each of them. */
  lemma UrlsForSpec(objects: Entries, key: string)
    ensures Keys(UrlsFor(objects)) == Keys(objects)
    ensures key in Keys(objects) <==> Get(UrlsFor(objects), key) == Some(LocalUrl(key))
    ensures key !in Keys(objects) <==> Get(UrlsFor(objects), key) == None
  {
    var u := UrlsFor(objects);
    assert Keys(u) == Keys(objects);
    var r := Get(u, key);
    if r.Some? {
      var i :| 0 <= i < |u| && u[i] == (key, r.value);
    }
  }

  /** Hours until the manifest expires. */
  const ExpirationHours: nat := 6

  /** `generatedAt.getTime() + EXPIRATION_HOURS * 60 * 60 * 1000`, in
      milliseconds since the epoch. */
  function ExpiresAt(generatedAt: int): (e: int)
  {
    generatedAt + ExpirationHours * 60 * 60 * 1000
  }

  /** `manifest.json`, with both instants in milliseconds. */
  datatype Manifest = Manifest(generated_at: int, expires_at: int, urls: Entries)

  /** The default map has six distinct keys, `headline` first and no
      `gates_analysis`. */
  lemma DefaultObjectsShape()
    ensures DistinctKeys(DefaultObjects)
    ensures Get(DefaultObjects, GatesAnalysisKey) == None
    ensures Get(DefaultObjects, HeadlineKey) == Some("prod/exports/headline.json")
  {
    var ks := Keys(DefaultObjects);
    assert ks == ["headline", "airline_breakdown", "tops", "bucket_distribution", "daily_status", "routes_metrics"];
    assert ks[0][0] == 'h' && ks[1][0] == 'a' && ks[2][0] == 't' && ks[3][0] == 'b' && ks[4][0] == 'd' && ks[5][0] == 'r';
    assert GatesAnalysisKey[0] == 'g';
    assert GatesAnalysisKey !in ks;
    GetAt(DefaultObjects, 0);
  }

  /** The script after its downloads: the object map, the autodetected
      `gates_analysis`, and the manifest written at `now`. Without
      SIGNED_OBJECT_MAP the manifest lists the six defaults and then
      `gates_analysis`; every key reads its local URL, and the manifest
      expires six hours after it is written. */
  method Sync(signedMap: Option<Entries>, now: int) returns (m: Manifest)
    requires signedMap.Some? ==> DistinctKeys(signedMap.value)
    ensures m.generated_at == now && m.expires_at == ExpiresAt(now)
    ensures signedMap.None? ==> Keys(m.urls) == Keys(DefaultObjects) + [GatesAnalysisKey]
    ensures forall key :: key in Keys(m.urls) ==> Get(m.urls, key) == Some(LocalUrl(key))
  {
    DefaultObjectsShape();
    var objects := new ObjectMap(signedMap);
    var before := objects.entries;
    objects.DeriveGatesAnalysis();
    if objects.entries != before {
      PutSpec(before, GatesAnalysisKey, GatesPath(Get(before, HeadlineKey).value), HeadlineKey);
    }
    var entries := objects.entries;
    var urls := ManifestUrls(entries);
    m := Manifest(now, ExpiresAt(now), urls);
    if signedMap.None? {
      var derived := GatesPath("prod/exports/headline.json");
      assert entries == Put(DefaultObjects, GatesAnalysisKey, derived);
      PutSpec(DefaultObjects, GatesAnalysisKey, derived, HeadlineKey);
      UrlsForSpec(entries, HeadlineKey);
    }
    forall key | key in Keys(m.urls) ensures Get(m.urls, key) == Some(LocalUrl(key)) {
      UrlsForSpec(entries, key);
    }
  }

  /** The manifest expires six hours, 21 600 000 ms, after it is written. */
  lemma ExpirySpec(generatedAt: int)
    ensures ExpiresAt(generatedAt) - generatedAt == 21600000
    ensures ExpiresAt(generatedAt) > generatedAt
  {
  }
}
