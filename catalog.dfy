/**
 * The timezone catalog (the TIMEZONES object of index.js) and the autocomplete
 * search over it. The catalog is a sequence of entries in definition order.
 * Object.entries lists integer-like keys first, in ascending order, and the
 * other string keys in definition order; no catalog key looks like an
 * integer, so definition order is the enumeration order.
 */
module Catalog {
  import opened Wrappers

  /** What the catalog knows about one place. */
  datatype Zone = Zone(name: string, timezone: string, emoji: string, utc: string)

  /** One `key: { name, timezone, emoji, utc }` property of the catalog. */
  datatype Entry = Entry(key: string, zone: Zone)

  ghost predicate HasKey(catalog: seq<Entry>, key: string) {
    exists i :: 0 <= i < |catalog| && catalog[i].key == key
  }

  /** An object literal cannot hold two properties with the same key. */
  ghost predicate UniqueKeys(catalog: seq<Entry>) {
    forall i, j :: 0 <= i < j < |catalog| ==> catalog[i].key != catalog[j].key
  }

  /** Own-property lookup `TIMEZONES[key]`: the zone stored under `key`, if any. */
  function Lookup(catalog: seq<Entry>, key: string): (r: Option<Zone>)
    ensures r.Some? <==> HasKey(catalog, key)
    ensures r.Some? ==> exists i :: 0 <= i < |catalog| && catalog[i] == Entry(key, r.value)
  {
    if catalog == [] then None
    else if catalog[0].key == key then Some(catalog[0].zone)
    else
      var r := Lookup(catalog[1..], key);
      assert r.Some? ==> exists i :: 0 <= i < |catalog[1..]| && catalog[1..][i] == Entry(key, r.value);
      assert HasKey(catalog, key) ==> HasKey(catalog[1..], key) by {
        if HasKey(catalog, key) {
          var i :| 0 <= i < |catalog| && catalog[i].key == key;
          assert catalog[1..][i - 1].key == key;
        }
      }
      r
  }

  /** In a catalog with unique keys, the lookup finds exactly the entry with that key. */
  lemma {:induction false} LookupFindsEntry(catalog: seq<Entry>, i: nat)
    requires UniqueKeys(catalog)
    requires i < |catalog|
    ensures Lookup(catalog, catalog[i].key) == Some(catalog[i].zone)
  {
    if i > 0 {
      assert catalog[0].key != catalog[i].key;
      assert catalog[1..][i - 1] == catalog[i];
      LookupFindsEntry(catalog[1..], i - 1);
    }
  }

  lemma LookupFindsEveryEntry(catalog: seq<Entry>)
    ensures UniqueKeys(catalog) ==> forall i :: 0 <= i < |catalog| ==> Lookup(catalog, catalog[i].key) == Some(catalog[i].zone)
  {
    if UniqueKeys(catalog) {
      forall i | 0 <= i < |catalog| ensures Lookup(catalog, catalog[i].key) == Some(catalog[i].zone) {
        LookupFindsEntry(catalog, i);
      }
    }
  }

  /**
   * String.prototype.toLowerCase on the letters the catalog uses: ASCII and
   * the Latin-1 upper-case letters (À..Þ without ×) map to their lower case.
   */
  function LowerChar(c: char): char {
    if 'A' <= c <= 'Z' || ('À' <= c <= 'Þ' && c != '×') then (c as int + 32) as char else c
  }

  function Lower(s: string): string {
    seq(|s|, i requires 0 <= i < |s| => LowerChar(s[i]))
  }

  predicate StartsWith(s: string, prefix: string) {
    |prefix| <= |s| && s[..|prefix|] == prefix
  }

  ghost predicate OccursAt(s: string, sub: string, i: int) {
    0 <= i <= |s| - |sub| && s[i..i + |sub|] == sub
  }

  lemma OccursInTail(s: string, sub: string, i: int)
    requires !StartsWith(s, sub) && OccursAt(s, sub, i)
    ensures i >= 1 && OccursAt(s[1..], sub, i - 1)
  {
    assert i != 0;
    assert s[1..][i - 1..i - 1 + |sub|] == s[i..i + |sub|];
  }

  lemma OccursFromTail(s: string, sub: string, i: int)
    requires s != [] && OccursAt(s[1..], sub, i)
    ensures OccursAt(s, sub, i + 1)
  {
    assert s[1..][i..i + |sub|] == s[i + 1..i + 1 + |sub|];
  }

  /** String.prototype.includes: `sub` occurs in `s` at some offset. */
  function Contains(s: string, sub: string): (r: bool)
    ensures r <==> exists i :: OccursAt(s, sub, i)
    decreases |s|
  {
    if StartsWith(s, sub) then
      assert OccursAt(s, sub, 0);
      true
    else if s == [] then
      false
    else
      var r := Contains(s[1..], sub);
      assert forall i :: OccursAt(s, sub, i) ==> i >= 1 && OccursAt(s[1..], sub, i - 1) by {
        forall i | OccursAt(s, sub, i) ensures i >= 1 && OccursAt(s[1..], sub, i - 1) {
          OccursInTail(s, sub, i);
        }
      }
      assert forall i :: OccursAt(s[1..], sub, i) ==> OccursAt(s, sub, i + 1) by {
        forall i | OccursAt(s[1..], sub, i) ensures OccursAt(s, sub, i + 1) {
          OccursFromTail(s, sub, i);
        }
      }
      r
  }

  /** The autocomplete filter: the lowered key, name or UTC label contains the lowered query. */
  predicate Matches(e: Entry, loweredQuery: string) {
    || Contains(Lower(e.key), loweredQuery)
    || Contains(Lower(e.zone.name), loweredQuery)
    || Contains(Lower(e.zone.utc), loweredQuery)
  }

  /** The indices, from `from` on and in increasing order, of the entries that match. */
  function MatchIndices(catalog: seq<Entry>, q: string, from: nat): (idx: seq<nat>)
    requires from <= |catalog|
    ensures forall k :: 0 <= k < |idx| ==> from <= idx[k] < |catalog| && Matches(catalog[idx[k]], q)
    ensures forall k, l :: 0 <= k < l < |idx| ==> idx[k] < idx[l]
    ensures forall j :: from <= j < |catalog| && Matches(catalog[j], q) ==> j in idx
    decreases |catalog| - from
  {
    if from == |catalog| then []
    else
      var rest := MatchIndices(catalog, q, from + 1);
      if Matches(catalog[from], q) then [from] + rest else rest
  }

  /** Discord accepts at most this many autocomplete choices (`.slice(0, 25)`). */
  const MaxChoices: nat := 25

  /** One autocomplete choice: what the user sees and the key that is submitted. */
  datatype Choice = Choice(name: string, value: string)

  function ChoiceOf(e: Entry): Choice {
    Choice(e.zone.emoji + " " + e.zone.name + " (" + e.zone.utc + ")", e.key)
  }

  /** The choices for the catalog entries at the indices `idx`, in that order. */
  function Choices(catalog: seq<Entry>, idx: seq<nat>): (r: seq<Choice>)
    requires forall k :: 0 <= k < |idx| ==> idx[k] < |catalog|
    ensures |r| == |idx| && forall k :: 0 <= k < |idx| ==> r[k] == ChoiceOf(catalog[idx[k]])
  {
    seq(|idx|, k requires 0 <= k < |idx| => ChoiceOf(catalog[idx[k]]))
  }

  /** `.slice(0, 25)`: at most the first 25 elements. */
  function Take25<T>(s: seq<T>): (r: seq<T>)
    ensures |r| <= MaxChoices && |r| <= |s| && r == s[..|r|]
    ensures |s| <= MaxChoices ==> r == s
    ensures |s| > MaxChoices ==> |r| == MaxChoices
  {
    if |s| <= MaxChoices then s else s[..MaxChoices]
  }

  /** Of an increasing sequence, the first 25 keep every element below the last one kept. */
  lemma TakeKeepsEarlier(all: seq<nat>, j: nat)
    requires forall k, l :: 0 <= k < l < |all| ==> all[k] < all[l]
    requires j in all
    requires |Take25(all)| < MaxChoices || j < Take25(all)[|Take25(all)| - 1]
    ensures j in Take25(all)
  {
    var idx := Take25(all);
    var k :| 0 <= k < |all| && all[k] == j;
    if |idx| == |all| {
      assert idx == all;
    } else {
      assert k < |idx|;
      assert idx[k] == j;
    }
  }

  /** The autocomplete answer for the text the user typed so far. */
  function Search(catalog: seq<Entry>, query: string): (r: seq<Choice>)
    ensures |r| <= MaxChoices
    ensures forall k :: 0 <= k < |r| ==>
      exists j :: 0 <= j < |catalog| && Matches(catalog[j], Lower(query)) && r[k] == ChoiceOf(catalog[j])
    ensures |r| < MaxChoices ==>
      forall j :: 0 <= j < |catalog| && Matches(catalog[j], Lower(query)) ==> ChoiceOf(catalog[j]) in r
  {
    var all := MatchIndices(catalog, Lower(query), 0);
    var idx := Take25(all);
    var r := Choices(catalog, idx);
    assert |r| < MaxChoices ==> forall j :: 0 <= j < |catalog| && Matches(catalog[j], Lower(query)) ==> ChoiceOf(catalog[j]) in r by {
      if |r| < MaxChoices {
        assert idx == all;
        forall j | 0 <= j < |catalog| && Matches(catalog[j], Lower(query))
          ensures ChoiceOf(catalog[j]) in r
        {
          var k :| 0 <= k < |idx| && idx[k] == j;
          assert r[k] == ChoiceOf(catalog[j]);
        }
      }
    }
    r
  }

  /**
   * `idx` lists, in increasing order, catalog indices of matching entries that
   * `r` shows one for one, and no matching entry is left out before the last
   * one shown (nor at all when fewer than 25 are shown).
   */
  ghost predicate FirstMatches(catalog: seq<Entry>, q: string, idx: seq<nat>, r: seq<Choice>) {
    && |idx| == |r|
    && (forall k :: 0 <= k < |idx| ==> idx[k] < |catalog| && Matches(catalog[idx[k]], q) && r[k] == ChoiceOf(catalog[idx[k]]))
    && (forall k, l :: 0 <= k < l < |idx| ==> idx[k] < idx[l])
    && (forall j :: 0 <= j < |catalog| && Matches(catalog[j], q) && (|idx| < MaxChoices || j < idx[|idx| - 1]) ==> j in idx)
  }

  /**
   * The answer is exactly the first min(25, #matches) matching entries, in
   * catalog order.
   */
  lemma SearchIsFirstMatchesInOrder(catalog: seq<Entry>, query: string)
    ensures exists idx :: FirstMatches(catalog, Lower(query), idx, Search(catalog, query))
  {
    var q := Lower(query);
    var all := MatchIndices(catalog, q, 0);
    var idx := Take25(all);
    var r := Search(catalog, query);
    assert r == Choices(catalog, idx);
    forall j | 0 <= j < |catalog| && Matches(catalog[j], q) && (|idx| < MaxChoices || j < idx[|idx| - 1])
      ensures j in idx
    {
      TakeKeepsEarlier(all, j);
    }
    assert FirstMatches(catalog, q, idx, r);
  }
}
