/**
 * The search filter: the query is lower-cased (the names are not), and the
 * listing entries whose name contains that needle are kept in their order.
 */
module SearchFilter {
  import opened Listing

  /** `toLowerCase` on one character, for the ASCII letters. */
  function LowerChar(c: char): char
  {
    if 'A' <= c <= 'Z' then (c as int + 32) as char else c
  }

  /** The ASCII upper-case letters, the characters `LowerChar` changes. */
  predicate IsUpper(c: char)
  {
    'A' <= c <= 'Z'
  }

  /** `query.toLowerCase()`. */
  function ToLower(s: string): (r: string)
    ensures |r| == |s|
    ensures forall i :: 0 <= i < |s| ==> !IsUpper(r[i])
    ensures forall i :: 0 <= i < |s| && IsUpper(s[i]) ==> r[i] == (s[i] as int + 32) as char
    ensures forall i :: 0 <= i < |s| && !IsUpper(s[i]) ==> r[i] == s[i]
  {
    seq(|s|, i requires 0 <= i < |s| => LowerChar(s[i]))
  }

  /** Lower-casing twice is lower-casing once. */
  lemma ToLowerIdempotent(s: string)
    ensures ToLower(ToLower(s)) == ToLower(s)
  {
  }

  /** Does `t` occur in `s` starting at `i`? */
  predicate OccursAt(s: string, t: string, i: int)
  {
    0 <= i && i + |t| <= |s| && s[i..i + |t|] == t
  }

  /** `s.includes(t)`: scan the start positions of `s` from the left. */
  predicate Contains(s: string, t: string)
    decreases |s|
  {
    if |t| > |s| then false
    else if s[..|t|] == t then true
    else Contains(s[1..], t)
  }

  /** The scan agrees with the definition "some start position holds `t`". */
  lemma {:induction false} ContainsIffOccurs(s: string, t: string)
    ensures Contains(s, t) <==> exists i :: OccursAt(s, t, i)
    decreases |s|
  {
    if |t| > |s| {
    } else if s[..|t|] == t {
      assert OccursAt(s, t, 0);
    } else {
      ContainsIffOccurs(s[1..], t);
      if Contains(s[1..], t) {
        var i :| OccursAt(s[1..], t, i);
        assert s[i + 1..i + 1 + |t|] == s[1..][i..i + |t|];
        assert OccursAt(s, t, i + 1);
      } else {
        forall i | OccursAt(s, t, i) ensures false {
          assert i != 0;
          assert s[1..][i - 1..i - 1 + |t|] == s[i..i + |t|];
          assert OccursAt(s[1..], t, i - 1);
        }
      }
    }
  }

  /** Every name contains the empty query. */
  lemma ContainsEmpty(s: string)
    ensures Contains(s, [])
  {
  }

  /** The predicate of the filter. */
  predicate Matches(entry: Summary, needle: string)
  {
    Contains(entry.name, needle)
  }

  /** `entries.filter(e => e.name.includes(needle))`. */
  function Filter(entries: seq<Summary>, needle: string): (r: seq<Summary>)
    ensures |r| <= |entries|
    ensures forall x :: x in r ==> x in entries && Matches(x, needle)
    decreases |entries|
  {
    if entries == [] then []
    else (if Matches(entries[0], needle) then [entries[0]] else []) + Filter(entries[1..], needle)
  }

  /** `sub` is `full` with some entries left out, the rest in their order. */
  predicate IsSubsequence<T(==)>(sub: seq<T>, full: seq<T>)
    decreases |full|
  {
    if sub == [] then true
    else if full == [] then false
    else if sub[0] == full[0] then IsSubsequence(sub[1..], full[1..])
    else IsSubsequence(sub, full[1..])
  }

  /** The filtered view is an order-preserving subsequence of the listing. */
  lemma {:induction false} FilterIsSubsequence(entries: seq<Summary>, needle: string)
    ensures IsSubsequence(Filter(entries, needle), entries)
    decreases |entries|
  {
    if entries != [] {
      FilterIsSubsequence(entries[1..], needle);
      var r := Filter(entries, needle);
      if Matches(entries[0], needle) {
        assert r[1..] == Filter(entries[1..], needle);
      } else {
        assert r == Filter(entries[1..], needle);
      }
    }
  }

  /** An entry is in the filtered view exactly when it is listed and its name contains the needle. */
  lemma {:induction false} FilterMembership(entries: seq<Summary>, needle: string, x: Summary)
    ensures x in Filter(entries, needle) <==> x in entries && Matches(x, needle)
    decreases |entries|
  {
    if entries != [] {
      FilterMembership(entries[1..], needle, x);
      assert entries == [entries[0]] + entries[1..];
    }
  }

  /** Filtering distributes over concatenation of listings. */
  lemma {:induction false} FilterAppend(a: seq<Summary>, b: seq<Summary>, needle: string)
    ensures Filter(a + b, needle) == Filter(a, needle) + Filter(b, needle)
    decreases |a|
  {
    if a == [] {
      assert a + b == b;
    } else {
      assert (a + b)[0] == a[0];
      assert (a + b)[1..] == a[1..] + b;
      FilterAppend(a[1..], b, needle);
    }
  }

  /** When every entry matches, the filter keeps the listing as it is. */
  lemma {:induction false} FilterAllMatch(entries: seq<Summary>, needle: string)
    requires forall i :: 0 <= i < |entries| ==> Matches(entries[i], needle)
    ensures Filter(entries, needle) == entries
    decreases |entries|
  {
    if entries != [] {
      FilterAllMatch(entries[1..], needle);
      assert entries == [entries[0]] + entries[1..];
    }
  }

  /** The empty query keeps the whole listing. */
  lemma FilterEmptyQuery(entries: seq<Summary>)
    ensures Filter(entries, []) == entries
  {
    forall i | 0 <= i < |entries| ensures Matches(entries[i], []) {
      ContainsEmpty(entries[i].name);
    }
    FilterAllMatch(entries, []);
  }

  /** Filtering the filtered view again with the same needle changes nothing. */
  lemma FilterIdempotent(entries: seq<Summary>, needle: string)
    ensures Filter(Filter(entries, needle), needle) == Filter(entries, needle)
  {
    var r := Filter(entries, needle);
    forall i | 0 <= i < |r| ensures Matches(r[i], needle) {
      assert r[i] in r;
    }
    FilterAllMatch(r, needle);
  }

  /** `searchPokemon`: lower-case the query and filter the full listing with it. */
  function SearchView(all: seq<Summary>, query: string): seq<Summary>
  {
    Filter(all, ToLower(query))
  }

  /**
   * The search result is an order-preserving subsequence of the listing and
   * holds exactly the entries whose name contains the lower-cased query.
   */
  lemma SearchViewSpec(all: seq<Summary>, query: string)
    ensures IsSubsequence(SearchView(all, query), all)
    ensures forall x :: x in SearchView(all, query) <==> x in all && Contains(x.name, ToLower(query))
  {
    FilterIsSubsequence(all, ToLower(query));
    forall x ensures x in SearchView(all, query) <==> x in all && Contains(x.name, ToLower(query)) {
      FilterMembership(all, ToLower(query), x);
    }
  }

  /** A name that lacks the needle's first character does not contain the needle. */
  lemma LacksFirstChar(s: string, t: string)
    requires |t| > 0 && t[0] !in s
    ensures !Contains(s, t)
  {
    ContainsIffOccurs(s, t);
  }

  /** A query without upper-case letters is its own lower-case form. */
  lemma LowerOfLowercase(s: string)
    requires forall i :: 0 <= i < |s| ==> !IsUpper(s[i])
    ensures ToLower(s) == s
  {
  }

  /** A name that starts with the needle contains it. */
  lemma StartsWith(s: string, t: string)
    requires |t| <= |s| && s[..|t|] == t
    ensures Contains(s, t)
  {
  }
}
