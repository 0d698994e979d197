/** The JavaScript string primitives the pipeline relies on: `trim`,
    `split` on a one-character separator, and `join`. */
module Text {

  /** The characters `String.prototype.trim` removes: the ECMAScript
      WhiteSpace and LineTerminator code points. */
  predicate IsSpace(c: char) {
    || c == ' ' || c == '\t' || c == '\n' || c == '\r'
    || c == '\U{000B}' || c == '\U{000C}' || c == '\U{00A0}' || c == '\U{1680}'
    || ('\U{2000}' <= c <= '\U{200A}')
    || c == '\U{2028}' || c == '\U{2029}' || c == '\U{202F}' || c == '\U{205F}'
    || c == '\U{3000}' || c == '\U{FEFF}'
  }

  /** The index of the first non-space character of `s` (`|s|` if none). */
  function FirstNonSpace(s: string): (n: nat)
    ensures n <= |s|
    ensures forall k :: 0 <= k < n ==> IsSpace(s[k])
    ensures n < |s| ==> !IsSpace(s[n])
    decreases |s|
  {
    if s != [] && IsSpace(s[0]) then 1 + FirstNonSpace(s[1..]) else 0
  }

  /** The index just past the last non-space character of `s` (0 if none). */
  function ContentEnd(s: string): (m: nat)
    ensures m <= |s|
    ensures forall k :: m <= k < |s| ==> IsSpace(s[k])
    ensures 0 < m ==> !IsSpace(s[m - 1])
    decreases |s|
  {
    if s != [] && IsSpace(s[|s| - 1]) then ContentEnd(s[..|s| - 1]) else |s|
  }

  /** `String.prototype.trim`: leading and trailing white space removed. */
  function Trim(s: string): (r: string)
    ensures |r| <= |s|
    ensures r == [] || (!IsSpace(r[0]) && !IsSpace(r[|r| - 1]))
  {
    var t := s[FirstNonSpace(s)..];
    t[..ContentEnd(t)]
  }

  /** `Trim` keeps the slice between a leading and a trailing run of white
      space. */
  lemma TrimSlice(s: string)
    ensures exists a, b :: 0 <= a <= b <= |s| && Trim(s) == s[a..b]
              && (forall k :: 0 <= k < a ==> IsSpace(s[k]))
              && (forall k :: b <= k < |s| ==> IsSpace(s[k]))
  {
    var a := FirstNonSpace(s);
    var t := s[a..];
    var m := ContentEnd(t);
    assert Trim(s) == s[a..a + m];
    forall k | a + m <= k < |s| ensures IsSpace(s[k]) {
      assert s[k] == t[k - a];
    }
  }

  /** `Trim` yields the empty string exactly for strings of white space. */
  lemma TrimEmpty(s: string)
    ensures Trim(s) == [] <==> forall k :: 0 <= k < |s| ==> IsSpace(s[k])
  {
    var a := FirstNonSpace(s);
    var t := s[a..];
    if a < |s| {
      assert t[0] == s[a];
      assert ContentEnd(t) > 0;
    }
  }

  /** A string is left unchanged by `Trim` exactly when it neither starts nor
      ends with white space; in particular `Trim` is idempotent. */
  lemma TrimFixed(s: string)
    ensures Trim(s) == s <==> (s == [] || (!IsSpace(s[0]) && !IsSpace(s[|s| - 1])))
    ensures Trim(Trim(s)) == Trim(s)
  {
    if s == [] || (!IsSpace(s[0]) && !IsSpace(s[|s| - 1])) {
      TrimUnchanged(s);
    }
    TrimUnchanged(Trim(s));
  }

  lemma TrimUnchanged(s: string)
    requires s == [] || (!IsSpace(s[0]) && !IsSpace(s[|s| - 1]))
    ensures Trim(s) == s
  {
    assert FirstNonSpace(s) == 0;
    assert s[0..] == s;
    assert ContentEnd(s) == |s|;
  }

  /** Number of occurrences of `c` in `s`. */
  function Occurrences(s: string, c: char): (n: nat)
    ensures n <= |s|
    ensures n == 0 <==> c !in s
    decreases |s|
  {
    if s == [] then 0 else (if s[0] == c then 1 else 0) + Occurrences(s[1..], c)
  }

  /** Extends the first piece of a non-empty list of pieces with `prefix`. */
  function Prepend(prefix: string, pieces: seq<string>): seq<string>
    requires pieces != []
  {
    [prefix + pieces[0]] + pieces[1..]
  }

  lemma PrependTwice(a: string, b: string, pieces: seq<string>)
    requires pieces != []
    ensures Prepend(a, Prepend(b, pieces)) == Prepend(a + b, pieces)
  {
    assert a + (b + pieces[0]) == (a + b) + pieces[0];
  }

  lemma PrependCons(prefix: string, first: string, rest: seq<string>)
    ensures Prepend(prefix, [first] + rest) == [prefix + first] + rest
  {
    assert ([first] + rest)[1..] == rest;
  }

  lemma PrependEmpty(pieces: seq<string>)
    requires pieces != []
    ensures Prepend([], pieces) == pieces
  {
    assert [] + pieces[0] == pieces[0];
  }

  /** `s.split(sep)` for a one-character separator: one piece more than there
      are separators, and no piece contains the separator. */
  function Split(s: string, sep: char): (parts: seq<string>)
    ensures |parts| == Occurrences(s, sep) + 1
    ensures forall k :: 0 <= k < |parts| ==> sep !in parts[k]
    decreases |s|
  {
    if s == [] then [[]]
    else
      var rest := Split(s[1..], sep);
      if s[0] == sep then [[]] + rest else Prepend([s[0]], rest)
  }

  /** `parts.join(sep)`. */
  function Join(parts: seq<string>, sep: char): string
    decreases |parts|
  {
    if parts == [] then []
    else if |parts| == 1 then parts[0]
    else parts[0] + [sep] + Join(parts[1..], sep)
  }

  /** A join of at least two pieces is the first piece, the separator and
      the join of the rest. */
  lemma JoinCons(first: string, rest: seq<string>, sep: char)
    requires rest != []
    ensures Join([first] + rest, sep) == first + ([sep] + Join(rest, sep))
  {
    assert ([first] + rest)[1..] == rest;
  }

  /** Extending the first piece extends the join. */
  lemma JoinPrepend(p: string, pieces: seq<string>, sep: char)
    requires pieces != []
    ensures Join(Prepend(p, pieces), sep) == p + Join(pieces, sep)
  {
    var longer := Prepend(p, pieces);
    if |pieces| > 1 {
      assert longer[1..] == pieces[1..];
      assert Join(pieces, sep) == pieces[0] + [sep] + Join(pieces[1..], sep);
      assert Join(longer, sep) == (p + pieces[0]) + [sep] + Join(pieces[1..], sep);
    }
  }

  /** Joining the pieces of a split gives back the original string. */
  lemma {:induction false} JoinSplit(s: string, sep: char)
    ensures Join(Split(s, sep), sep) == s
    decreases |s|
  {
    if s != [] {
      var rest := Split(s[1..], sep);
      JoinSplit(s[1..], sep);
      if s[0] == sep {
        assert Split(s, sep) == [[]] + rest;
        JoinCons([], rest, sep);
        assert [] + ([sep] + s[1..]) == s;
      } else {
        assert Split(s, sep) == Prepend([s[0]], rest);
        JoinPrepend([s[0]], rest, sep);
        assert [s[0]] + s[1..] == s;
      }
    }
  }

  /** Splitting `p + t` where `p` holds no separator extends the first piece
      of the split of `t` by `p`. */
  lemma {:induction false} SplitPrefix(p: string, t: string, sep: char)
    requires sep !in p
    ensures Split(p + t, sep) == Prepend(p, Split(t, sep))
    decreases |p|
  {
    if p == [] {
      assert p + t == t;
      PrependEmpty(Split(t, sep));
    } else {
      var q, pieces := p[1..], Split(t, sep);
      assert Split(p + t, sep) == Prepend([p[0]], Split(q + t, sep)) by {
        assert (p + t)[0] == p[0] && (p + t)[1..] == q + t;
      }
      assert Split(q + t, sep) == Prepend(q, pieces) by {
        SplitPrefix(q, t, sep);
      }
      PrependTwice([p[0]], q, pieces);
      assert [p[0]] + q == p;
    }
  }

  /** Splitting a join of separator-free pieces gives back the pieces. */
  lemma {:induction false} SplitJoin(parts: seq<string>, sep: char)
    requires parts != []
    requires forall k :: 0 <= k < |parts| ==> sep !in parts[k]
    ensures Split(Join(parts, sep), sep) == parts
    decreases |parts|
  {
    if |parts| == 1 {
      SplitPrefix(parts[0], [], sep);
      assert parts[0] + [] == parts[0];
    } else {
      var tail := [sep] + Join(parts[1..], sep);
      assert Join(parts, sep) == parts[0] + tail;
      SplitPrefix(parts[0], tail, sep);
      SplitJoin(parts[1..], sep);
      assert tail[1..] == Join(parts[1..], sep);
      assert Split(tail, sep) == [[]] + parts[1..];
      assert parts[0] + [] == parts[0];
    }
  }

  /** Applies `Trim` to every piece (`.map(v => v.trim())`). */
  function TrimAll(pieces: seq<string>): (r: seq<string>)
    ensures |r| == |pieces|
    ensures forall k :: 0 <= k < |r| ==> r[k] == Trim(pieces[k])
  {
    seq(|pieces|, k requires 0 <= k < |pieces| => Trim(pieces[k]))
  }

  /** The digits of `n` in base ten (`String(n)` for a natural number). */
  function NatToString(n: nat): (s: string)
    ensures s != []
    ensures forall k :: 0 <= k < |s| ==> '0' <= s[k] <= '9'
    ensures DecimalValue(s) == n
    ensures |s| > 1 ==> s[0] != '0'
  {
    if n < 10 then [Digit(n)]
    else
      var front := NatToString(n / 10);
      var s := front + [Digit(n % 10)];
      assert s[..|s| - 1] == front;
      assert s[0] == front[0];
      s
  }

  /** The number a string of decimal digits denotes. */
  function DecimalValue(s: string): nat
    requires forall k :: 0 <= k < |s| ==> '0' <= s[k] <= '9'
    decreases |s|
  {
    if s == [] then 0
    else 10 * DecimalValue(s[..|s| - 1]) + (s[|s| - 1] as int - '0' as int)
  }

  function Digit(d: nat): (c: char)
    requires d < 10
    ensures '0' <= c <= '9'
    ensures c as int - '0' as int == d
  {
    ['0', '1', '2', '3', '4', '5', '6', '7', '8', '9'][d]
  }
}
