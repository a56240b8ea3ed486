/**
 * The catalog listing: one summary per entry (its name and its detail URL),
 * and the extraction of the entry's id from that URL with
 * `url.split('/').slice(-2, -1)[0]`.
 */
module Listing {
  import opened Wrappers

  /** One record of the listing response's `results`. */
  datatype Summary = Summary(name: string, url: string)

  const SEPARATOR: char := '/'

  /**
   * `s.split('/')`: the maximal runs between separators, in order. There is
   * always at least one segment (the empty string splits into `[""]`).
   */
  function Split(s: string): (parts: seq<string>)
    ensures |parts| >= 1
    ensures forall i :: 0 <= i < |parts| ==> SEPARATOR !in parts[i]
    decreases |s|
  {
    if s == [] then [[]]
    else
      var rest := Split(s[1..]);
      if s[0] == SEPARATOR then [[]] + rest
      else [[s[0]] + rest[0]] + rest[1..]
  }

  /** Joining with '/': not called by the viewer, the inverse that pins `Split` down. */
  function Join(parts: seq<string>): string
    requires |parts| >= 1
    decreases |parts|
  {
    if |parts| == 1 then parts[0] else parts[0] + [SEPARATOR] + Join(parts[1..])
  }

  /** Joining the segments back gives the original string. */
  lemma {:induction false} JoinSplit(s: string)
    ensures Join(Split(s)) == s
    decreases |s|
  {
    if s != [] {
      JoinSplit(s[1..]);
      var rest := Split(s[1..]);
      if s[0] == SEPARATOR {
        assert s == [s[0]] + s[1..];
      } else {
        if |rest| == 1 {
          assert s == [s[0]] + rest[0];
        } else {
          assert Join(rest) == rest[0] + [SEPARATOR] + Join(rest[1..]);
          assert s == [s[0]] + s[1..];
        }
      }
    }
  }

  /** A string without separators is a single segment. */
  lemma {:induction false} SplitPlain(s: string)
    requires SEPARATOR !in s
    ensures Split(s) == [s]
    decreases |s|
  {
    if s != [] {
      assert SEPARATOR !in s[1..] by {
        forall k | 0 <= k < |s[1..]| ensures s[1..][k] != SEPARATOR {
          assert s[1..][k] == s[k + 1];
        }
      }
      SplitPlain(s[1..]);
      assert s == [s[0]] + s[1..];
    }
  }

  /** Splitting at a separator splits each side separately. */
  lemma {:induction false} SplitAtSeparator(a: string, b: string)
    ensures Split(a + [SEPARATOR] + b) == Split(a) + Split(b)
    decreases |a|
  {
    var s := a + [SEPARATOR] + b;
    if a == [] {
      assert s[1..] == b;
    } else {
      assert s[1..] == a[1..] + [SEPARATOR] + b;
      SplitAtSeparator(a[1..], b);
    }
  }

  /** Splitting joined separator-free segments gives the segments back. */
  lemma {:induction false} SplitJoin(parts: seq<string>)
    requires |parts| >= 1
    requires forall i :: 0 <= i < |parts| ==> SEPARATOR !in parts[i]
    ensures Split(Join(parts)) == parts
    decreases |parts|
  {
    SplitPlain(parts[0]);
    if |parts| > 1 {
      SplitJoin(parts[1..]);
      SplitAtSeparator(parts[0], Join(parts[1..]));
      assert parts == [parts[0]] + parts[1..];
    }
  }

  /**
   * `url.split('/').slice(-2, -1)[0]`: the second-to-last segment, or
   * `undefined` (None) when the URL holds no separator.
   */
  function ExtractId(url: string): (id: Option<string>)
    ensures id.None? <==> SEPARATOR !in url
    ensures id.Some? ==> SEPARATOR !in id.value
  {
    var parts := Split(url);
    assert SEPARATOR in url ==> |parts| >= 2 by {
      if SEPARATOR in url { SplitHasSeparator(url); }
    }
    assert SEPARATOR !in url ==> parts == [url] by {
      if SEPARATOR !in url { SplitPlain(url); }
    }
    if |parts| >= 2 then Some(parts[|parts| - 2]) else None
  }

  /** A URL that holds a separator splits into at least two segments. */
  lemma {:induction false} SplitHasSeparator(s: string)
    requires SEPARATOR in s
    ensures |Split(s)| >= 2
    decreases |s|
  {
    if s[0] != SEPARATOR {
      assert SEPARATOR in s[1..] by {
        var k :| 0 <= k < |s| && s[k] == SEPARATOR;
        assert s[1..][k - 1] == SEPARATOR;
      }
      SplitHasSeparator(s[1..]);
    }
  }

  /** For a URL `prefix + "/" + id + "/"` with a separator-free id, the id is extracted. */
  lemma ExtractIdOfDetailUrl(prefix: string, id: string)
    requires SEPARATOR !in id
    ensures ExtractId(prefix + [SEPARATOR] + id + [SEPARATOR]) == Some(id)
  {
    var head := prefix + [SEPARATOR] + id;
    assert prefix + [SEPARATOR] + id + [SEPARATOR] == head + [SEPARATOR] + [];
    SplitAtSeparator(head, []);
    SplitAtSeparator(prefix, id);
    SplitPlain(id);
    SplitPlain([]);
  }
}
