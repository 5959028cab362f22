/** The JavaScript string operations the application relies on, over
    `seq<char>`: digit tests, ASCII lower-casing, `includes`, `join`,
    `split` and decimal rendering of non-negative integers; `startsWith` is
    the sequence prefix `<=`. */
module Text {

  /** A character of the class `[0-9]` (what `\d` matches without the `u` flag). */
  predicate IsDigit(c: char) {
    '0' <= c <= '9'
  }

  predicate AllDigits(s: string) {
    forall i :: 0 <= i < |s| ==> IsDigit(s[i])
  }

  /** `s.replace(/\D/g, "")`: every non-digit character removed. */
  function DigitsOnly(s: string): (r: string)
    ensures AllDigits(r)
    ensures |r| <= |s|
    ensures AllDigits(s) ==> r == s
    ensures |s| == 1 ==> r == if IsDigit(s[0]) then s else []
  {
    if s == [] then []
    else if IsDigit(s[0]) then [s[0]] + DigitsOnly(s[1..])
    else DigitsOnly(s[1..])
  }

  /** `DigitsOnly` keeps the digits of a concatenation piecewise. */
  lemma {:induction false} DigitsOnlyConcat(a: string, b: string)
    ensures DigitsOnly(a + b) == DigitsOnly(a) + DigitsOnly(b)
  {
    if a != [] {
      assert (a + b)[1..] == a[1..] + b;
      DigitsOnlyConcat(a[1..], b);
    } else {
      assert a + b == b;
    }
  }

  /** ASCII-only `toLowerCase` of one character. */
  function LowerChar(c: char): (r: char)
    ensures 'A' <= c <= 'Z' ==> r != c && 'a' <= r <= 'z'
    ensures !('A' <= c <= 'Z') ==> r == c
  {
    if 'A' <= c <= 'Z' then (c as int + 32) as char else c
  }

  /** ASCII-only `s.toLowerCase()`. */
  function Lower(s: string): (r: string)
    ensures |r| == |s|
    ensures forall i :: 0 <= i < |s| ==> r[i] == LowerChar(s[i])
  {
    seq(|s|, i requires 0 <= i < |s| => LowerChar(s[i]))
  }

  /** Lower-casing twice is lower-casing once. */
  lemma LowerIdempotent(s: string)
    ensures Lower(Lower(s)) == Lower(s)
  {
  }

  /** `needle` occurs in `hay` starting at position `i`. */
  predicate OccursAt(hay: string, needle: string, i: int) {
    0 <= i && i + |needle| <= |hay| && hay[i..i + |needle|] == needle
  }

  /** `hay.includes(needle)`, computed by trying each start position in turn. */
  function Includes(hay: string, needle: string): bool
    decreases |hay|
  {
    needle <= hay || (hay != [] && Includes(hay[1..], needle))
  }

  /** `Includes` holds exactly when the needle occurs at some position. */
  lemma {:induction false} IncludesIff(hay: string, needle: string)
    ensures Includes(hay, needle) <==> exists i :: OccursAt(hay, needle, i)
    decreases |hay|
  {
    if needle <= hay {
      assert OccursAt(hay, needle, 0);
    } else if hay != [] {
      IncludesIff(hay[1..], needle);
      OccursShift(hay, needle);
    }
  }

  /** When the needle is not a prefix, it occurs in the string exactly when
      it occurs in the string's tail. */
  lemma OccursShift(hay: string, needle: string)
    requires hay != [] && !(needle <= hay)
    ensures (exists i :: OccursAt(hay, needle, i)) <==> exists i :: OccursAt(hay[1..], needle, i)
  {
    if i :| OccursAt(hay[1..], needle, i) {
      assert hay[1..][i..i + |needle|] == hay[i + 1..i + 1 + |needle|];
      assert OccursAt(hay, needle, i + 1);
    }
    assert OccursAt(hay, needle, 0) ==> needle <= hay;
    if i :| OccursAt(hay, needle, i) {
      assert i != 0;
      assert hay[1..][i - 1..i - 1 + |needle|] == hay[i..i + |needle|];
      assert OccursAt(hay[1..], needle, i - 1);
    }
  }

  /** `parts.join(sep)`. */
  function Join(parts: seq<string>, sep: string): (r: string)
    ensures parts == [] ==> r == []
    ensures |parts| == 1 ==> r == parts[0]
  {
    if parts == [] then []
    else if |parts| == 1 then parts[0]
    else parts[0] + sep + Join(parts[1..], sep)
  }

  /** `s.split(sep)` for a non-empty separator: scanning left to right, every
      non-overlapping occurrence of `sep` cuts the string. The result always
      has at least one piece (`"".split(sep)` is `[""]`). */
  function Split(s: string, sep: string): (r: seq<string>)
    requires sep != []
    ensures |r| >= 1
    decreases |s|
  {
    if s == [] then [[]]
    else if sep <= s then [[]] + Split(s[|sep|..], sep)
    else
      var rest := Split(s[1..], sep);
      [[s[0]] + rest[0]] + rest[1..]
  }

  /** Joining the pieces of a split with the same separator gives back the
      original string, for every string. */
  lemma {:induction false} JoinSplit(s: string, sep: string)
    requires sep != []
    ensures Join(Split(s, sep), sep) == s
    decreases |s|
  {
    if s == [] {
    } else if sep <= s {
      JoinSplit(s[|sep|..], sep);
      JoinSplitAtSep(s, sep);
    } else {
      JoinSplit(s[1..], sep);
      JoinSplitAtChar(s, sep);
    }
  }

  /** The step of `JoinSplit` when the string starts with the separator. */
  lemma JoinSplitAtSep(s: string, sep: string)
    requires sep != [] && sep <= s
    requires Join(Split(s[|sep|..], sep), sep) == s[|sep|..]
    ensures Join(Split(s, sep), sep) == s
  {
    var t := s[|sep|..];
    SplitAtSep(s, sep);
    JoinEmptyHead(Split(t, sep), sep, t);
    PrefixRest(s, sep);
  }

  /** An empty first piece makes the join start with the separator. */
  lemma JoinEmptyHead(rest: seq<string>, sep: string, t: string)
    requires |rest| >= 1 && Join(rest, sep) == t
    ensures Join([[]] + rest, sep) == sep + t
  {
    var parts := [[]] + rest;
    assert parts[0] == [] && parts[1..] == rest && |parts| > 1;
    assert Join(parts, sep) == [] + sep + t;
    assert [] + sep + t == sep + t;
  }

  /** A string starting with the separator splits into an empty piece
      followed by the pieces of what comes after the separator. */
  lemma SplitAtSep(s: string, sep: string)
    requires sep != [] && sep <= s
    ensures Split(s, sep) == [[]] + Split(s[|sep|..], sep)
  {
  }

  lemma PrefixRest(s: string, p: string)
    requires p <= s
    ensures s == p + s[|p|..]
  {
    assert p == s[..|p|];
    assert s == s[..|p|] + s[|p|..];
  }

  /** The step of `JoinSplit` when the string starts with a plain character. */
  lemma JoinSplitAtChar(s: string, sep: string)
    requires sep != [] && s != [] && !(sep <= s)
    requires Join(Split(s[1..], sep), sep) == s[1..]
    ensures Join(Split(s, sep), sep) == s
  {
    SplitAtChar(s, sep);
    JoinCharHead(s[0], Split(s[1..], sep), sep, s[1..]);
    assert s == [s[0]] + s[1..];
  }

  /** A string not starting with the separator puts its first character at
      the front of the first piece of its tail's split. */
  lemma SplitAtChar(s: string, sep: string)
    requires sep != [] && s != [] && !(sep <= s)
    ensures var rest := Split(s[1..], sep);
            Split(s, sep) == [[s[0]] + rest[0]] + rest[1..]
  {
  }

  /** `JoinExtendFirst` with the join of the tail named. */
  lemma JoinCharHead(c: char, rest: seq<string>, sep: string, t: string)
    requires |rest| >= 1 && Join(rest, sep) == t
    ensures Join([[c] + rest[0]] + rest[1..], sep) == [c] + t
  {
    JoinExtendFirst(c, rest, sep);
  }

  /** Joining a list with a head item puts the separator after that item. */
  lemma JoinCons(a: string, rest: seq<string>, sep: string)
    requires |rest| >= 1
    ensures Join([a] + rest, sep) == a + sep + Join(rest, sep)
  {
    assert ([a] + rest)[1..] == rest;
  }

  /** Prepending a character to the first item prepends it to the join. */
  lemma JoinExtendFirst(c: char, r: seq<string>, sep: string)
    requires |r| >= 1
    ensures Join([[c] + r[0]] + r[1..], sep) == [c] + Join(r, sep)
  {
    if |r| > 1 {
      JoinCons([c] + r[0], r[1..], sep);
      JoinCons(r[0], r[1..], sep);
      assert [r[0]] + r[1..] == r;
    }
  }

  /** No occurrence of `sep` starts inside `p` when `p` is followed by `tail`. */
  predicate NoCutInside(p: string, tail: string, sep: string) {
    forall i :: 0 <= i < |p| ==> !(sep <= (p + tail)[i..])
  }

  /** Splitting a piece free of cuts followed by the separator yields that
      piece first. */
  lemma {:induction false} SplitPiece(p: string, rest: string, sep: string)
    requires sep != []
    requires NoCutInside(p, sep + rest, sep)
    ensures Split(p + sep + rest, sep) == [p] + Split(rest, sep)
    decreases |p|
  {
    var s := p + sep + rest;
    if p == [] {
      assert s == sep + rest;
      SplitAtSep(s, sep);
      assert s[|sep|..] == rest;
    } else {
      var t := p[1..] + sep + rest;
      assert s != [] && !(sep <= s) && s[1..] == t by {
        assert s == p + (sep + rest);
        NoCutInsideTail(p, sep + rest, sep);
      }
      assert Split(t, sep) == [p[1..]] + Split(rest, sep) by {
        NoCutInsideTail(p, sep + rest, sep);
        SplitPiece(p[1..], rest, sep);
      }
      SplitAtChar(s, sep);
      assert [s[0]] + p[1..] == p;
    }
  }

  /** A cut-free piece does not start with the separator, and neither does
      any later suffix of it. */
  lemma NoCutInsideTail(p: string, tail: string, sep: string)
    requires p != [] && NoCutInside(p, tail, sep)
    ensures !(sep <= p + tail) && NoCutInside(p[1..], tail, sep)
  {
    assert (p + tail)[0..] == p + tail;
    forall i | 0 <= i < |p[1..]|
      ensures !(sep <= (p[1..] + tail)[i..])
    {
      assert (p[1..] + tail)[i..] == (p + tail)[i + 1..];
    }
  }

  /** Splitting at a one-character separator cuts at every occurrence of
      it: no piece contains the separator character. */
  lemma {:induction false} SplitCharPieces(s: string, c: char)
    ensures forall k :: 0 <= k < |Split(s, [c])| ==> c !in Split(s, [c])[k]
    decreases |s|
  {
    if s != [] {
      var rest := Split(s[1..], [c]);
      SplitCharPieces(s[1..], c);
      if [c] <= s {
        SplitAtSep(s, [c]);
      } else {
        assert s[0] != c;
        SplitAtChar(s, [c]);
        assert c !in [s[0]] + rest[0];
      }
    }
  }

  /** Splitting a piece free of cuts gives that piece alone. */
  lemma {:induction false} SplitWhole(p: string, sep: string)
    requires sep != []
    requires NoCutInside(p, [], sep)
    ensures Split(p, sep) == [p]
    decreases |p|
  {
    if p != [] {
      assert p + [] == p;
      assert !(sep <= p[0..]);
      assert p[0..] == p;
      forall i | 0 <= i < |p[1..]|
        ensures !(sep <= (p[1..] + [])[i..])
      {
        assert (p[1..] + [])[i..] == (p + [])[i + 1..];
      }
      SplitWhole(p[1..], sep);
      assert [p[0]] + p[1..] == p;
    }
  }

  /** The `", "` separator used to display and parse category lists. */
  const CommaSpace: string := ", "

  /** A piece that never contains `", "` cannot produce a cut inside itself,
      whatever follows it, as long as what follows starts with a comma or
      is empty. */
  lemma NoCommaSpaceNoCut(p: string, tail: string)
    requires !Includes(p, CommaSpace)
    requires tail == [] || tail[0] == ','
    ensures NoCutInside(p, tail, CommaSpace)
  {
    IncludesIff(p, CommaSpace);
    assert |CommaSpace| == 2 && CommaSpace[0] == ',' && CommaSpace[1] == ' ';
    forall i | 0 <= i < |p|
      ensures !(CommaSpace <= (p + tail)[i..])
    {
      if i + 1 < |p| {
        assert p[i..i + 2] == (p + tail)[i..][..2];
        assert !OccursAt(p, CommaSpace, i);
        assert p[i..i + 2] != CommaSpace;
      } else {
        assert (p + tail)[i..] == [p[i]] + tail;
      }
    }
  }

  /** Joining with `", "` and splitting on `", "` gives back every non-empty
      list whose items do not themselves contain `", "`. */
  lemma {:induction false} SplitJoinCommaSpace(parts: seq<string>)
    requires |parts| >= 1
    requires forall k :: 0 <= k < |parts| ==> !Includes(parts[k], CommaSpace)
    ensures Split(Join(parts, CommaSpace), CommaSpace) == parts
  {
    if |parts| == 1 {
      NoCommaSpaceNoCut(parts[0], []);
      SplitWhole(parts[0], CommaSpace);
    } else {
      var rest := Join(parts[1..], CommaSpace);
      NoCommaSpaceNoCut(parts[0], CommaSpace + rest);
      SplitPiece(parts[0], rest, CommaSpace);
      SplitJoinCommaSpace(parts[1..]);
      assert [parts[0]] + parts[1..] == parts;
    }
  }

  /** The character of a decimal digit value. */
  function DigitChar(d: nat): (c: char)
    requires d < 10
    ensures IsDigit(c)
  {
    ('0' as int + d) as char
  }

  /** The value of a decimal digit character. */
  function DigitValue(c: char): (d: nat)
    requires IsDigit(c)
    ensures d < 10
    ensures DigitChar(d) == c
  {
    (c as int - '0' as int)
  }

  /** The value of a non-empty string of decimal digits, most significant first. */
  function DigitsValue(s: string): nat
    requires AllDigits(s)
  {
    if s == [] then 0
    else DigitsValue(s[..|s| - 1]) * 10 + DigitValue(s[|s| - 1])
  }

  /** `n.toString()` for a non-negative integer. */
  function NatToString(n: nat): (r: string)
    ensures r != []
    ensures AllDigits(r)
  {
    if n < 10 then [DigitChar(n)]
    else NatToString(n / 10) + [DigitChar(n % 10)]
  }

  /** Rendering in decimal and reading the digits back gives the number. */
  lemma {:induction false} NatToStringValue(n: nat)
    ensures DigitsValue(NatToString(n)) == n
  {
    var r := NatToString(n);
    if n >= 10 {
      NatToStringValue(n / 10);
      assert r[..|r| - 1] == NatToString(n / 10);
    }
  }

  function Pow10(k: nat): (r: nat)
    ensures r >= 1
  {
    if k == 0 then 1 else 10 * Pow10(k - 1)
  }

  /** A number in `[10^(k-1), 10^k)` renders with exactly `k` digits. */
  lemma {:induction false} NatToStringLength(n: nat, k: nat)
    requires k >= 1
    requires Pow10(k - 1) <= n < Pow10(k)
    ensures |NatToString(n)| == k
  {
    if k > 1 {
      assert Pow10(k - 1) == 10 * Pow10(k - 2);
      assert n >= 10;
      assert Pow10(k - 2) <= n / 10 < Pow10(k - 1);
      NatToStringLength(n / 10, k - 1);
    } else {
      assert n < 10;
    }
  }
}
