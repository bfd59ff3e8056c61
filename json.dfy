/** A JSON document as PHP's `json_decode($text, true)` hands it to the
    commands: objects become ordered key/value lists, and text that is not
    JSON is reported instead of a value. An associative array does not
    remember whether it came from an object or a list, so `json_encode`
    writes some objects back as lists; `RoundTrip` is what a decode followed
    by an encode makes of a value. */
module ManifestJson {
  import opened Wrappers
  import opened Text

  datatype Json =
    | Null
    | Bool(b: bool)
    | Number(n: real)
    | Str(s: string)
    | List(items: seq<Json>)
    | Object(entries: seq<(string, Json)>)

  /** The outcome of `json_decode`: `Invalid` when `json_last_error()` would
      report an error. */
  datatype Decoded = Invalid | Value(v: Json)

  /** PHP's `empty()` on a decoded value: `null`, `false`, `0`, `""`, `"0"`
      and empty arrays. */
  predicate PhpEmpty(v: Json) {
    match v
    case Null => true
    case Bool(b) => !b
    case Number(n) => n == 0.0
    case Str(s) => s == "" || s == "0"
    case List(items) => items == []
    case Object(entries) => entries == []
  }

  /** `$array[$key]` on a decoded object; of duplicate keys the last one
      wins, as in `json_decode`. `None` when the key is absent. */
  function Lookup(entries: seq<(string, Json)>, key: string): (r: Option<Json>)
    ensures r.Some? <==> exists i :: 0 <= i < |entries| && entries[i].0 == key
    decreases |entries|
  {
    if entries == [] then None
    else if entries[|entries| - 1].0 == key then Some(entries[|entries| - 1].1)
    else Lookup(entries[..|entries| - 1], key)
  }

  /** No key occurs twice. */
  predicate DistinctKeys(entries: seq<(string, Json)>) {
    forall i, j :: 0 <= i < j < |entries| ==> entries[i].0 != entries[j].0
  }

  /** The keys of the entries. */
  function Keys(entries: seq<(string, Json)>): set<string> {
    set i | 0 <= i < |entries| :: entries[i].0
  }

  /** The position of the first entry with key `k`. */
  function KeyIndex(entries: seq<(string, Json)>, k: string): (r: Option<nat>)
    ensures r.Some? ==> r.value < |entries| && entries[r.value].0 == k
    ensures r.None? <==> k !in Keys(entries)
    decreases |entries|
  {
    if entries == [] then None
    else
      var n := |entries| - 1;
      match KeyIndex(entries[..n], k)
      case Some(i) => Some(i)
      case None =>
        assert Keys(entries) == Keys(entries[..n]) + {entries[n].0};
        if entries[n].0 == k then Some(n) else None
  }

  /** The array `json_decode($text, true)` builds from an object's entries:
      one entry per distinct key, at the place where the key first occurs,
      holding the value it has last. */
  function MergeKeys(entries: seq<(string, Json)>): (r: seq<(string, Json)>)
    ensures DistinctKeys(r)
    ensures Keys(r) == Keys(entries)
    ensures forall i :: 0 <= i < |r| ==> r[i] in entries && Lookup(entries, r[i].0) == Some(r[i].1)
    decreases |entries|
  {
    if entries == [] then []
    else
      var n := |entries| - 1;
      var m := MergeKeys(entries[..n]);
      assert Keys(entries) == Keys(entries[..n]) + {entries[n].0};
      match KeyIndex(m, entries[n].0)
      case Some(i) =>
        MergeReplace(entries, m, i);
        m[i := entries[n]]
      case None =>
        MergeAppend(entries, m);
        m + [entries[n]]
  }

  lemma MergeReplace(entries: seq<(string, Json)>, m: seq<(string, Json)>, i: nat)
    requires |entries| > 0 && i < |m| && m[i].0 == entries[|entries| - 1].0
    requires var n := |entries| - 1;
      DistinctKeys(m) && Keys(m) == Keys(entries[..n])
      && forall j :: 0 <= j < |m| ==> m[j] in entries[..n] && Lookup(entries[..n], m[j].0) == Some(m[j].1)
    ensures var r := m[i := entries[|entries| - 1]];
      DistinctKeys(r) && Keys(r) == Keys(entries)
      && forall j :: 0 <= j < |r| ==> r[j] in entries && Lookup(entries, r[j].0) == Some(r[j].1)
  {
    var n := |entries| - 1;
    var r := m[i := entries[n]];
    assert Keys(entries) == Keys(entries[..n]) + {entries[n].0};
    assert Keys(r) == Keys(m) by {
      forall k ensures k in Keys(r) <==> k in Keys(m) {
        if k in Keys(m) {
          var j :| 0 <= j < |m| && m[j].0 == k;
          assert r[j].0 == k;
        }
      }
    }
    forall j | 0 <= j < |r| ensures r[j] in entries && Lookup(entries, r[j].0) == Some(r[j].1) {
      if j == i {
        assert r[j] == entries[n];
      } else {
        assert m[j] in entries[..n];
        assert r[j].0 != entries[n].0;
      }
    }
  }

  lemma MergeAppend(entries: seq<(string, Json)>, m: seq<(string, Json)>)
    requires |entries| > 0 && entries[|entries| - 1].0 !in Keys(m)
    requires var n := |entries| - 1;
      DistinctKeys(m) && Keys(m) == Keys(entries[..n])
      && forall j :: 0 <= j < |m| ==> m[j] in entries[..n] && Lookup(entries[..n], m[j].0) == Some(m[j].1)
    ensures var r := m + [entries[|entries| - 1]];
      DistinctKeys(r) && Keys(r) == Keys(entries)
      && forall j :: 0 <= j < |r| ==> r[j] in entries && Lookup(entries, r[j].0) == Some(r[j].1)
  {
    var n := |entries| - 1;
    var r := m + [entries[n]];
    assert Keys(entries) == Keys(entries[..n]) + {entries[n].0};
    assert Keys(r) == Keys(m) + {entries[n].0} by {
      forall k ensures k in Keys(r) <==> k in Keys(m) + {entries[n].0} {
        if k in Keys(m) {
          var j :| 0 <= j < |m| && m[j].0 == k;
          assert r[j].0 == k;
        }
        if k == entries[n].0 {
          assert r[|m|].0 == k;
        }
      }
    }
    forall j | 0 <= j < |r| ensures r[j] in entries && Lookup(entries, r[j].0) == Some(r[j].1) {
      if j < |m| {
        assert m[j] in entries[..n];
        assert r[j].0 != entries[n].0;
      }
    }
  }

  /** Entries whose keys are already distinct are kept as they are. */
  lemma {:induction false} MergeDistinct(entries: seq<(string, Json)>)
    requires DistinctKeys(entries)
    ensures MergeKeys(entries) == entries
    decreases |entries|
  {
    if entries != [] {
      var n := |entries| - 1;
      MergeDistinct(entries[..n]);
      assert entries[n].0 !in Keys(entries[..n]);
      assert entries[..n] + [entries[n]] == entries;
    }
  }

  /** The keys run "0", "1", "2", ... in order; PHP stores such keys as the
      integers of a list. */
  predicate ListKeys(entries: seq<(string, Json)>) {
    forall j :: 0 <= j < |entries| ==> entries[j].0 == Decimal(j)
  }

  /** `json_encode` of an array with distinct keys: a list when its keys run
      0, 1, 2, ..., so in particular the empty array is `[]`, and an object
      otherwise. */
  function EncodeArray(entries: seq<(string, Json)>): Json {
    if ListKeys(entries) then List(seq(|entries|, j requires 0 <= j < |entries| => entries[j].1))
    else Object(entries)
  }

  /** `json_encode(json_decode($text, true))` on the decoded value: duplicate
      keys merged, and every object whose keys run 0, 1, 2, ... (the empty
      one included) written as a list, at every depth. */
  function RoundTrip(v: Json): (r: Json)
    ensures v.List? ==> r.List? && |r.items| == |v.items|
    ensures v.Object? ==> r.Object? || r.List?
    ensures !v.List? && !v.Object? ==> r == v
    decreases v
  {
    match v
    case List(items) => List(seq(|items|, i requires 0 <= i < |items| => RoundTrip(items[i])))
    case Object(entries) => EncodeArray(MergeKeys(RoundTripEntries(v, entries)))
    case _ => v
  }

  function RoundTripEntries(v: Json, entries: seq<(string, Json)>): (r: seq<(string, Json)>)
    requires v.Object? && entries == v.entries
    ensures |r| == |entries|
    ensures forall i :: 0 <= i < |r| ==> r[i] == (entries[i].0, RoundTrip(entries[i].1))
    decreases v, 0
  {
    seq(|entries|, i requires 0 <= i < |entries| => (entries[i].0, RoundTrip(entries[i].1)))
  }

  /** A value `json_encode` has written comes back unchanged from a second
      decode and encode: optimizing a manifest twice is optimizing it once. */
  lemma {:induction false} RoundTripIdempotent(v: Json)
    ensures RoundTrip(RoundTrip(v)) == RoundTrip(v)
    decreases v
  {
    match v
    case List(items) =>
      var once := seq(|items|, i requires 0 <= i < |items| => RoundTrip(items[i]));
      forall i | 0 <= i < |items| ensures RoundTrip(once[i]) == once[i] {
        RoundTripIdempotent(items[i]);
      }
      assert seq(|once|, i requires 0 <= i < |once| => RoundTrip(once[i])) == once;
    case Object(entries) =>
      var m := MergeKeys(RoundTripEntries(v, entries));
      forall j | 0 <= j < |m| ensures RoundTrip(m[j].1) == m[j].1 {
        var ne := RoundTripEntries(v, entries);
        assert m[j] in ne;
        var i :| 0 <= i < |ne| && ne[i] == m[j];
        RoundTripIdempotent(entries[i].1);
      }
      if ListKeys(m) {
        var items := seq(|m|, j requires 0 <= j < |m| => m[j].1);
        assert RoundTrip(v) == List(items);
        assert seq(|items|, i requires 0 <= i < |items| => RoundTrip(items[i])) == items;
      } else {
        assert RoundTrip(v) == Object(m);
        assert RoundTripEntries(Object(m), m) == m;
        MergeDistinct(m);
      }
    case _ =>
  }

  /** A manifest-shaped object, with distinct keys of which the first is not
      "0" and with values that are written back unchanged, is itself written
      back unchanged. */
  lemma PlainObjectKept(entries: seq<(string, Json)>)
    requires |entries| > 0 && entries[0].0 != "0" && DistinctKeys(entries)
    requires forall i :: 0 <= i < |entries| ==> RoundTrip(entries[i].1) == entries[i].1
    ensures RoundTrip(Object(entries)) == Object(entries)
  {
    assert RoundTripEntries(Object(entries), entries) == entries;
    MergeDistinct(entries);
    assert Decimal(0) == "0";
  }

  /** An object keyed "0", "1", "2", ... in order, `{}` included, is written
      back as the list of its values. */
  lemma IndexKeyedObjectIsList(entries: seq<(string, Json)>)
    requires ListKeys(entries) && DistinctKeys(entries)
    ensures RoundTrip(Object(entries)) == List(seq(|entries|, i requires 0 <= i < |entries| => RoundTrip(entries[i].1)))
  {
    var ne := RoundTripEntries(Object(entries), entries);
    SameKeysRoundTrip(entries, ne);
    MergeDistinct(ne);
    assert RoundTrip(Object(entries)) == EncodeArray(ne);
  }

  /** Round-tripping the values keeps an object's keys distinct and running
      0, 1, 2, ... when they did, and its values are the round-tripped ones. */
  lemma SameKeysRoundTrip(entries: seq<(string, Json)>, ne: seq<(string, Json)>)
    requires ListKeys(entries) && DistinctKeys(entries)
    requires |ne| == |entries| && forall i :: 0 <= i < |ne| ==> ne[i] == (entries[i].0, RoundTrip(entries[i].1))
    ensures DistinctKeys(ne) && ListKeys(ne)
    ensures EncodeArray(ne) == List(seq(|entries|, i requires 0 <= i < |entries| => RoundTrip(entries[i].1)))
  {
    assert forall i :: 0 <= i < |ne| ==> ne[i].0 == entries[i].0;
  }

  /** PHP's `empty()` does not care whether the array came from an object
      or a list. */
  lemma PhpEmptyRoundTrip(v: Json)
    ensures PhpEmpty(RoundTrip(v)) == PhpEmpty(v)
  {
    match v
    case Object(entries) =>
      var m := MergeKeys(RoundTripEntries(v, entries));
      if entries != [] {
        assert entries[0].0 in Keys(entries);
        assert Keys(RoundTripEntries(v, entries)) == Keys(entries) by {
          var ne := RoundTripEntries(v, entries);
          forall k ensures k in Keys(ne) <==> k in Keys(entries) {
            if k in Keys(entries) {
              var i :| 0 <= i < |entries| && entries[i].0 == k;
              assert ne[i].0 == k;
            }
          }
        }
        assert m != [];
      }
    case _ =>
  }

  /** Round-tripping the values of an object's entries keeps its keys and
      round-trips the value a key looks up. */
  lemma LookupRoundTrip(entries: seq<(string, Json)>, ne: seq<(string, Json)>, key: string)
    requires |ne| == |entries| && forall i :: 0 <= i < |ne| ==> ne[i] == (entries[i].0, RoundTrip(entries[i].1))
    ensures Keys(ne) == Keys(entries)
    ensures Lookup(ne, key) == if Lookup(entries, key).Some? then Some(RoundTrip(Lookup(entries, key).value)) else None
  {
    assert forall k :: k in Keys(ne) ==> k in Keys(entries) by {
      forall k | k in Keys(ne) ensures k in Keys(entries) {
        var i :| 0 <= i < |ne| && ne[i].0 == k;
        assert entries[i].0 == k;
      }
    }
    assert forall k :: k in Keys(entries) ==> k in Keys(ne) by {
      forall k | k in Keys(entries) ensures k in Keys(ne) {
        var i :| 0 <= i < |entries| && entries[i].0 == k;
        assert ne[i].0 == k;
      }
    }
    LookupValuesRoundTrip(entries, ne, key);
  }

  /** The value part of `LookupRoundTrip`, by induction on the entries. */
  lemma {:induction false} LookupValuesRoundTrip(entries: seq<(string, Json)>, ne: seq<(string, Json)>, key: string)
    requires |ne| == |entries| && forall i :: 0 <= i < |ne| ==> ne[i] == (entries[i].0, RoundTrip(entries[i].1))
    ensures Lookup(ne, key) == if Lookup(entries, key).Some? then Some(RoundTrip(Lookup(entries, key).value)) else None
    decreases |entries|
  {
    if entries != [] {
      var n := |entries| - 1;
      LookupValuesRoundTrip(entries[..n], ne[..n], key);
    }
  }

  /** The value of a key is the one it has last. */
  lemma {:induction false} LookupLastWins(before: seq<(string, Json)>, key: string, x: Json, after: seq<(string, Json)>)
    requires forall i :: 0 <= i < |after| ==> after[i].0 != key
    ensures Lookup(before + [(key, x)] + after, key) == Some(x)
    decreases |after|
  {
    var m := before + [(key, x)] + after;
    if after == [] {
      assert m[|m| - 1] == (key, x);
    } else {
      var n := |after| - 1;
      assert m[..|m| - 1] == before + [(key, x)] + after[..n];
      assert m[|m| - 1] == after[n];
      LookupLastWins(before, key, x, after[..n]);
    }
  }

  /** `isset($manifest[$key])`: only an object has keys, and a key holding
      `null` is not set. */
  predicate IsSet(v: Json, key: string) {
    v.Object? && var r := Lookup(v.entries, key); r.Some? && r.value != Null
  }
}
