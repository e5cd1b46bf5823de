/**
 * The `filteredBreeds` computation of frontend/src/App.tsx: until the breeds
 * are loaded the list is empty; otherwise the search query is lower-cased and
 * trimmed, and the breed map's keys that contain it are kept, in key order.
 * Lower-casing and trimming are those of ASCII.
 */
module BreedFilter {
  import opened Outcomes

  /** The breeds map: each breed name with its sub-breeds, in `Object.keys` order. */
  datatype BreedMap = BreedMap(entries: seq<(string, seq<string>)>)

  /** `Object.keys(breeds)`. */
  function Keys(m: BreedMap): seq<string>
  {
    seq(|m.entries|, i requires 0 <= i < |m.entries| => m.entries[i].0)
  }

  /** The ASCII white-space characters `trim` removes. */
  predicate IsWhitespace(c: char)
  {
    c == ' ' || c == '\t' || c == '\n' || c == '\U{000B}' || c == '\U{000C}' || c == '\r'
  }

  predicate AllWhitespace(s: string)
  {
    forall i | 0 <= i < |s| :: IsWhitespace(s[i])
  }

  function LowerChar(c: char): char
  {
    if 'A' <= c <= 'Z' then (c as int + 32) as char else c
  }

  /** The two strings are equal but for the case of their ASCII letters. */
  predicate SameUpToCase(a: string, b: string)
  {
    |a| == |b| && forall i | 0 <= i < |a| :: LowerChar(a[i]) == LowerChar(b[i])
  }

  /** `toLowerCase()`. */
  function ToLower(s: string): (r: string)
    ensures |r| == |s|
    ensures forall i | 0 <= i < |s| :: r[i] == LowerChar(s[i])
  {
    if s == [] then [] else [LowerChar(s[0])] + ToLower(s[1..])
  }

  /** Leading white space removed: what is left is a suffix of `s`, after white space only. */
  function TrimStart(s: string): (r: string)
    ensures |r| <= |s| && r == s[|s| - |r|..]
    ensures AllWhitespace(s[..|s| - |r|])
    ensures r == [] || !IsWhitespace(r[0])
  {
    if s != [] && IsWhitespace(s[0]) then TrimStart(s[1..]) else s
  }

  /** Trailing white space removed: what is left is a prefix of `s`, before white space only. */
  function TrimEnd(s: string): (r: string)
    ensures |r| <= |s| && r == s[..|r|]
    ensures AllWhitespace(s[|r|..])
    ensures r == [] || !IsWhitespace(r[|r| - 1])
  {
    if s != [] && IsWhitespace(s[|s| - 1]) then TrimEnd(s[..|s| - 1]) else s
  }

  /** `trim()`. */
  function Trim(s: string): string
  {
    TrimEnd(TrimStart(s))
  }

  /** `searchQuery.toLowerCase().trim()`. */
  function NormalizeQuery(searchQuery: string): string
  {
    Trim(ToLower(searchQuery))
  }

  /** `s.includes(sub)`: `sub` starts at some position of `s`. */
  predicate Includes(s: string, sub: string)
    decreases |s|
  {
    sub <= s || (s != [] && Includes(s[1..], sub))
  }

  /** `keys.filter(breed => breed.includes(query))`. */
  function FilterKeys(keys: seq<string>, query: string): (r: seq<string>)
    ensures |r| <= |keys|
    ensures forall k | k in r :: k in keys && Includes(k, query)
    ensures forall k | k in keys && Includes(k, query) :: k in r
  {
    if keys == [] then []
    else (if Includes(keys[0], query) then [keys[0]] else []) + FilterKeys(keys[1..], query)
  }

  /** `filteredBreeds`: `breeds` is `None` until the breeds query has data. */
  function FilteredBreeds(breeds: Option<BreedMap>, searchQuery: string): (r: seq<string>)
    ensures breeds.None? ==> r == []
    ensures forall k | k in r :: Includes(k, NormalizeQuery(searchQuery))
  {
    match breeds
    case None => []
    case Some(m) => FilterKeys(Keys(m), NormalizeQuery(searchQuery))
  }

  /** `r` is `s` with some elements left out, the others in their order. */
  predicate IsSubsequence(r: seq<string>, s: seq<string>)
    decreases |s|
  {
    if r == [] then true
    else if s == [] then false
    else (r[0] == s[0] && IsSubsequence(r[1..], s[1..])) || IsSubsequence(r, s[1..])
  }

  /** `sub` occurs in `s` starting at position `i`. */
  predicate OccursAt(s: string, sub: string, i: int)
  {
    0 <= i <= |s| - |sub| && s[i..i + |sub|] == sub
  }

  /** `includes` is a search over every start position. */
  lemma {:induction false} IncludesAt(s: string, sub: string)
    ensures Includes(s, sub) <==> exists i :: OccursAt(s, sub, i)
  {
    if sub <= s {
      assert OccursAt(s, sub, 0);
    } else if s == [] {
      assert forall i | OccursAt(s, sub, i) :: i == 0 && sub <= s;
    } else {
      IncludesAt(s[1..], sub);
      if Includes(s, sub) {
        var i :| OccursAt(s[1..], sub, i);
        assert OccursAt(s, sub, i + 1);
      }
      if exists i :: OccursAt(s, sub, i) {
        var i :| OccursAt(s, sub, i);
        assert i != 0;
        assert OccursAt(s[1..], sub, i - 1);
      }
    }
  }

  /** The kept keys are the matching keys in key order. */
  lemma {:induction false} FilterKeysSubsequence(keys: seq<string>, query: string)
    ensures IsSubsequence(FilterKeys(keys, query), keys)
  {
    if keys != [] {
      FilterKeysSubsequence(keys[1..], query);
      var rest := FilterKeys(keys[1..], query);
      if Includes(keys[0], query) {
        assert ([keys[0]] + rest)[1..] == rest;
      } else {
        assert FilterKeys(keys, query) == rest;
      }
    }
  }

  /** No matching key is dropped and none is repeated: each key is kept as often as it occurs if it matches, else never. */
  lemma {:induction false} FilterKeysCounts(keys: seq<string>, query: string, k: string)
    ensures multiset(FilterKeys(keys, query))[k] == if Includes(k, query) then multiset(keys)[k] else 0
  {
    if keys != [] {
      FilterKeysCounts(keys[1..], query, k);
      assert keys == [keys[0]] + keys[1..];
    }
  }

  /** Every string includes the empty string, so an empty query keeps every key. */
  lemma {:induction false} FilterKeysEmptyQuery(keys: seq<string>)
    ensures FilterKeys(keys, "") == keys
  {
    if keys != [] {
      FilterKeysEmptyQuery(keys[1..]);
      assert Includes(keys[0], "");
    }
  }

  /** An empty or all-white-space query gives every key once the breeds are loaded. */
  lemma BlankQueryKeepsAll(m: BreedMap, searchQuery: string)
    requires AllWhitespace(searchQuery)
    ensures FilteredBreeds(Some(m), searchQuery) == Keys(m)
  {
    var lowered := ToLower(searchQuery);
    assert AllWhitespace(lowered);
    FilterKeysEmptyQuery(Keys(m));
  }

  /** Leading white space does not change what `TrimStart` keeps. */
  lemma {:induction false} TrimStartPadded(pad: string, s: string)
    requires AllWhitespace(pad)
    ensures TrimStart(pad + s) == TrimStart(s)
  {
    if pad != [] {
      assert (pad + s)[1..] == pad[1..] + s;
      TrimStartPadded(pad[1..], s);
    } else {
      assert pad + s == s;
    }
  }

  /** Trailing white space does not change what `TrimEnd` keeps. */
  lemma {:induction false} TrimEndPadded(s: string, pad: string)
    requires AllWhitespace(pad)
    ensures TrimEnd(s + pad) == TrimEnd(s)
    decreases |pad|
  {
    if pad != [] {
      var shorter := pad[..|pad| - 1];
      assert (s + pad)[..|s + pad| - 1] == s + shorter;
      TrimEndPadded(s, shorter);
    } else {
      assert s + pad == s;
    }
  }

  /** Once a string has a non-white-space character, `TrimStart` leaves whatever follows it alone. */
  lemma {:induction false} TrimStartAppend(s: string, t: string)
    requires !AllWhitespace(s)
    ensures TrimStart(s + t) == TrimStart(s) + t
  {
    assert s != [];
    if IsWhitespace(s[0]) {
      assert (s + t)[1..] == s[1..] + t;
      TrimStartAppend(s[1..], t);
    }
  }

  /** Nothing is left of a string of white space. */
  lemma TrimStartBlank(s: string)
    requires AllWhitespace(s)
    ensures TrimStart(s) == []
  {
    var r := TrimStart(s);
    assert r == s[|s| - |r|..];
  }

  /** `trim()` ignores white space added around a string. */
  lemma TrimPadded(lead: string, s: string, trail: string)
    requires AllWhitespace(lead) && AllWhitespace(trail)
    ensures Trim(lead + s + trail) == Trim(s)
  {
    assert lead + s + trail == lead + (s + trail);
    TrimStartPadded(lead, s + trail);
    if AllWhitespace(s) {
      assert AllWhitespace(s + trail);
      TrimStartBlank(s + trail);
      TrimStartBlank(s);
    } else {
      TrimStartAppend(s, trail);
      TrimEndPadded(TrimStart(s), trail);
    }
  }

  /** Lower-casing works character by character, so it distributes over concatenation. */
  lemma ToLowerAppend(a: string, b: string)
    ensures ToLower(a + b) == ToLower(a) + ToLower(b)
  {
  }

  /**
   * Queries that differ only in the case of their letters or in white space
   * around them select the same breeds.
   */
  lemma QueryNormalized(breeds: Option<BreedMap>, lead: string, query: string, trail: string, other: string)
    requires AllWhitespace(lead) && AllWhitespace(trail)
    requires SameUpToCase(query, other)
    ensures FilteredBreeds(breeds, lead + query + trail) == FilteredBreeds(breeds, other)
  {
    ToLowerAppend(lead + query, trail);
    ToLowerAppend(lead, query);
    assert ToLower(lead) == lead;
    assert ToLower(trail) == trail;
    assert ToLower(query) == ToLower(other);
    TrimPadded(lead, ToLower(other), trail);
  }

  /** A query longer than the key is never included in it. */
  lemma {:induction false} IncludesTooLong(s: string, sub: string)
    requires |s| < |sub|
    ensures !Includes(s, sub)
  {
    if s != [] {
      IncludesTooLong(s[1..], sub);
    }
  }

  /** Keys are matched as stored: a capitalised key is not found by its own name. */
  lemma KeysNotLowerCased()
    ensures FilteredBreeds(Some(BreedMap([("Akita", [])])), "Akita") == []
  {
    var lowered := ToLower("Akita");
    assert lowered[0] == 'a';
    assert |lowered| == 5;
    assert NormalizeQuery("Akita") == lowered by {
      assert !IsWhitespace(lowered[0]) && !IsWhitespace(lowered[4]);
    }
    assert !(lowered <= "Akita");
    IncludesTooLong("kita", lowered);
    assert "Akita"[1..] == "kita";
    assert Keys(BreedMap([("Akita", [])])) == ["Akita"];
  }
}
