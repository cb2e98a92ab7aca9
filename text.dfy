/** Strings as sequences of characters, and the two textual encodings the news
    route relies on: the `key=value&key=value` query string of a URL, and the
    decimal rendering of a natural number (JavaScript's `${n}` for a
    non-negative integer). Each encoder comes with a decoder and a round trip. */
module Text {

  type Str = seq<char>

  datatype Option<T> = None | Some(value: T)

  /** `t` occurs somewhere inside `s`. */
  ghost predicate Contains(s: Str, t: Str) {
    exists k :: OccursAt(s, t, k)
  }

  /** `t` occurs inside `s` starting at index `k`. */
  predicate OccursAt(s: Str, t: Str, k: int) {
    0 <= k <= |s| - |t| && s[k..k + |t|] == t
  }

  /** `t` occurs inside `pre + t + post`; the witness is the end of `pre`. */
  lemma ContainsMiddle(pre: Str, t: Str, post: Str)
    ensures Contains(pre + t + post, t)
  {
    var s := pre + t + post;
    assert OccursAt(s, t, |pre|);
  }

  // ---------------------------------------------------------------------------
  // Splitting and joining on a separator character
  // ---------------------------------------------------------------------------

  /** Cuts `s` at the first `c`: the part before it and the part after it.
      Without any `c`, everything is "before" and "after" is empty. */
  function SplitFirst(s: Str, c: char): (r: (Str, Str))
    ensures c !in r.0
    ensures c in s ==> s == r.0 + [c] + r.1
    ensures c !in s ==> r == (s, [])
  {
    if s == [] then ([], [])
    else if s[0] == c then ([], s[1..])
    else
      var (before, after) := SplitFirst(s[1..], c);
      assert s == [s[0]] + s[1..];
      ([s[0]] + before, after)
  }

  /** The cut is determined by the first separator: a prefix free of `c`,
      followed by `c`, is exactly what SplitFirst returns as "before". */
  lemma {:induction false} SplitFirstAt(pre: Str, c: char, post: Str)
    requires c !in pre
    ensures SplitFirst(pre + [c] + post, c) == (pre, post)
  {
    if pre != [] {
      assert (pre + [c] + post)[1..] == pre[1..] + [c] + post;
      SplitFirstAt(pre[1..], c, post);
      assert [pre[0]] + pre[1..] == pre;
    }
  }

  /** A prefix free of `c` is kept whole in front of the cut. */
  lemma {:induction false} SplitFirstPrefix(pre: Str, post: Str, c: char)
    requires c !in pre
    ensures SplitFirst(pre + post, c).0 == pre + SplitFirst(post, c).0
  {
    if pre != [] {
      assert (pre + post)[1..] == pre[1..] + post;
      SplitFirstPrefix(pre[1..], post, c);
      assert [pre[0]] + (pre[1..] + SplitFirst(post, c).0) == pre + SplitFirst(post, c).0;
    } else {
      assert pre + post == post;
    }
  }

  /** Glues the pieces together, `c` between each two of them. */
  function Join(parts: seq<Str>, c: char): Str
    requires |parts| >= 1
  {
    if |parts| == 1 then parts[0] else parts[0] + [c] + Join(parts[1..], c)
  }

  /** Cuts `s` at every `c`. Joining the pieces again gives `s` back, and no
      piece holds a separator. */
  function SplitAll(s: Str, c: char): (r: seq<Str>)
    ensures |r| >= 1
    ensures forall i :: 0 <= i < |r| ==> c !in r[i]
    ensures Join(r, c) == s
    decreases |s|
  {
    if c !in s then [s]
    else
      var (before, after) := SplitFirst(s, c);
      var rest := SplitAll(after, c);
      assert ([before] + rest)[1..] == rest;
      [before] + rest
  }

  /** Splitting undoes joining when no piece holds the separator. */
  lemma {:induction false} SplitAllJoin(parts: seq<Str>, c: char)
    requires |parts| >= 1
    requires forall i :: 0 <= i < |parts| ==> c !in parts[i]
    ensures SplitAll(Join(parts, c), c) == parts
  {
    if |parts| > 1 {
      var rest := Join(parts[1..], c);
      SplitFirstAt(parts[0], c, rest);
      SplitAllJoin(parts[1..], c);
      assert c in parts[0] + [c] + rest;
      assert [parts[0]] + parts[1..] == parts;
    }
  }

  // ---------------------------------------------------------------------------
  // Query strings: `k1=v1&k2=v2&...`, read raw (no percent-decoding)
  // ---------------------------------------------------------------------------

  type Param = (Str, Str)

  /** The `key=value` pieces of a parameter list, in order. */
  function Pieces(ps: seq<Param>): (r: seq<Str>)
    ensures |r| == |ps|
  {
    if ps == [] then [] else [ps[0].0 + "=" + ps[0].1] + Pieces(ps[1..])
  }

  /** The query string of a non-empty parameter list. */
  function FormatQuery(ps: seq<Param>): Str
    requires |ps| >= 1
  {
    Join(Pieces(ps), '&')
  }

  /** Reads a query string back into its parameters: pieces at each `&`, each
      piece cut at its first `=` (a piece without `=` is a key with an empty
      value, as URLSearchParams reads it). */
  function ParseQuery(q: Str): (r: seq<Param>)
  {
    ParsePieces(SplitAll(q, '&'))
  }

  function ParsePieces(pieces: seq<Str>): (r: seq<Param>)
    ensures |r| == |pieces|
  {
    if pieces == [] then [] else [SplitFirst(pieces[0], '=')] + ParsePieces(pieces[1..])
  }

  /** A parameter list the query string can carry unambiguously: no key holds
      `=` or `&`, no value holds `&`. */
  predicate Transportable(ps: seq<Param>) {
    forall i :: 0 <= i < |ps| ==> '=' !in ps[i].0 && '&' !in ps[i].0 && '&' !in ps[i].1
  }

  lemma {:induction false} ParsePiecesOf(ps: seq<Param>)
    requires Transportable(ps)
    ensures forall i :: 0 <= i < |ps| ==> '&' !in Pieces(ps)[i]
    ensures ParsePieces(Pieces(ps)) == ps
  {
    if ps != [] {
      assert Transportable(ps[1..]) by {
        forall i | 0 <= i < |ps| - 1 ensures '=' !in ps[1..][i].0 && '&' !in ps[1..][i].0 && '&' !in ps[1..][i].1 {
          assert ps[1..][i] == ps[i + 1];
        }
      }
      ParsePiecesOf(ps[1..]);
      SplitFirstAt(ps[0].0, '=', ps[0].1);
      assert ps[0].0 + "=" + ps[0].1 == ps[0].0 + ['='] + ps[0].1;
      forall i | 0 <= i < |ps| ensures '&' !in Pieces(ps)[i] {
        if i > 0 {
          assert Pieces(ps)[i] == Pieces(ps[1..])[i - 1];
        }
      }
      assert [ps[0]] + ps[1..] == ps;
    }
  }

  /** A character that is neither separator and occurs in no key or value
      does not occur in the query string. */
  lemma {:induction false} FormatQueryAvoids(ps: seq<Param>, d: char)
    requires |ps| >= 1 && d != '=' && d != '&'
    requires forall i :: 0 <= i < |ps| ==> d !in ps[i].0 && d !in ps[i].1
    ensures d !in FormatQuery(ps)
  {
    PiecesAvoid(ps, d);
    JoinAvoids(Pieces(ps), '&', d);
  }

  lemma {:induction false} PiecesAvoid(ps: seq<Param>, d: char)
    requires d != '='
    requires forall i :: 0 <= i < |ps| ==> d !in ps[i].0 && d !in ps[i].1
    ensures forall i :: 0 <= i < |ps| ==> d !in Pieces(ps)[i]
  {
    if ps != [] {
      PiecesAvoid(ps[1..], d);
      forall i | 0 <= i < |ps| ensures d !in Pieces(ps)[i] {
        if i > 0 {
          assert Pieces(ps)[i] == Pieces(ps[1..])[i - 1];
        }
      }
    }
  }

  lemma {:induction false} JoinAvoids(parts: seq<Str>, c: char, d: char)
    requires |parts| >= 1 && d != c
    requires forall i :: 0 <= i < |parts| ==> d !in parts[i]
    ensures d !in Join(parts, c)
  {
    if |parts| > 1 {
      JoinAvoids(parts[1..], c, d);
    }
  }

  /** Round trip of the query-string codec. */
  lemma QueryRoundTrip(ps: seq<Param>)
    requires |ps| >= 1
    requires Transportable(ps)
    ensures ParseQuery(FormatQuery(ps)) == ps
  {
    ParsePiecesOf(ps);
    SplitAllJoin(Pieces(ps), '&');
  }

  /** The first value stored under `key`, or None: URLSearchParams.get. */
  function Lookup(ps: seq<Param>, key: Str): (r: Option<Str>)
    ensures r.None? <==> forall i :: 0 <= i < |ps| ==> ps[i].0 != key
    ensures r.Some? ==> exists i :: 0 <= i < |ps| && ps[i] == (key, r.value)
                                   && forall j :: 0 <= j < i ==> ps[j].0 != key
  {
    if ps == [] then None
    else if ps[0].0 == key then Some(ps[0].1)
    else
      var r := Lookup(ps[1..], key);
      assert forall i :: 1 <= i < |ps| ==> ps[i] == ps[1..][i - 1];
      r
  }

  // ---------------------------------------------------------------------------
  // Decimal numerals
  // ---------------------------------------------------------------------------

  predicate IsDigit(c: char) { '0' <= c <= '9' }

  /** The decimal numeral of `n`, most significant digit first, no leading zero. */
  function Decimal(n: nat): (r: Str)
    ensures |r| >= 1 && forall i :: 0 <= i < |r| ==> IsDigit(r[i])
    ensures n > 0 ==> r[0] != '0'
  {
    if n < 10 then [(('0' as int) + n) as char]
    else Decimal(n / 10) + [(('0' as int) + n % 10) as char]
  }

  /** The number a string of digits denotes. */
  function DigitsValue(s: Str): nat
    requires forall i :: 0 <= i < |s| ==> IsDigit(s[i])
  {
    if s == [] then 0
    else
      assert IsDigit(s[|s| - 1]);
      DigitsValue(s[..|s| - 1]) * 10 + (s[|s| - 1] as int - '0' as int)
  }

  /** Reading a numeral gives back the number it was written from. */
  lemma {:induction false} DecimalRoundTrip(n: nat)
    ensures DigitsValue(Decimal(n)) == n
  {
    if n >= 10 {
      DecimalRoundTrip(n / 10);
      var s := Decimal(n);
      assert s[..|s| - 1] == Decimal(n / 10);
    }
  }

  /** Different numbers have different numerals. */
  lemma DecimalInjective(m: nat, n: nat)
    requires m != n
    ensures Decimal(m) != Decimal(n)
  {
    DecimalRoundTrip(m);
    DecimalRoundTrip(n);
  }
}
