/** Strings as the registry's Go code handles them: the order of `sort.Strings`,
    the compound registry key, `strconv.FormatUint`, `strconv.Quote` and
    `strings.ReplaceAll`. */
module Text {

  /** Go's `<` on strings: lexicographic on bytes. On Unicode scalar values the
      order of the UTF-8 encodings is the order of the code points, so comparing
      Dafny characters gives the same answer. */
  predicate Less(a: string, b: string)
  {
    if a == [] then b != []
    else if b == [] then false
    else if a[0] != b[0] then a[0] < b[0]
    else Less(a[1..], b[1..])
  }

  lemma {:induction false} LessIrreflexive(a: string)
    ensures !Less(a, a)
  {
    if a != [] {
      LessIrreflexive(a[1..]);
    }
  }

  lemma {:induction false} LessTransitive(a: string, b: string, c: string)
    requires Less(a, b) && Less(b, c)
    ensures Less(a, c)
  {
    if a != [] && a[0] == b[0] && b[0] == c[0] {
      LessTransitive(a[1..], b[1..], c[1..]);
    }
  }

  lemma {:induction false} LessTotal(a: string, b: string)
    requires a != b
    ensures Less(a, b) || Less(b, a)
  {
    if a != [] && b != [] && a[0] == b[0] {
      assert a == [a[0]] + a[1..] && b == [b[0]] + b[1..];
      LessTotal(a[1..], b[1..]);
    }
  }

  lemma LessAsymmetric(a: string, b: string)
    requires Less(a, b)
    ensures !Less(b, a)
  {
    if Less(b, a) {
      LessTransitive(a, b, a);
      LessIrreflexive(a);
    }
  }

  /** Strictly ascending: what `sort.Strings` makes of the distinct keys of a map. */
  predicate Ascending(s: seq<string>)
  {
    forall i, j :: 0 <= i < j < |s| ==> Less(s[i], s[j])
  }

  /** Ascending sequences have no repeated element. */
  lemma AscendingDistinct(s: seq<string>)
    requires Ascending(s)
    ensures forall i, j :: 0 <= i < j < |s| ==> s[i] != s[j]
  {
    forall i, j | 0 <= i < j < |s| ensures s[i] != s[j] {
      LessIrreflexive(s[i]);
    }
  }

  /** `r` lists every element of `ks` exactly once, in ascending order. */
  ghost predicate SortedOf(r: seq<string>, ks: set<string>)
  {
    Ascending(r) && |r| == |ks| && forall y :: y in r <==> y in ks
  }

  /** One step of insertion sort: `x` placed where it belongs in `s`. */
  function Insert(s: seq<string>, x: string): (r: seq<string>)
    requires Ascending(s) && x !in s
    ensures Ascending(r) && |r| == |s| + 1
    ensures forall y :: y in r <==> y in s || y == x
  {
    if s == [] then [x]
    else if Less(x, s[0]) then
      LessBelowAll(x, s);
      [x] + s
    else
      LessTotal(x, s[0]);
      var t := Insert(s[1..], x);
      assert forall y :: y in t ==> Less(s[0], y) by {
        forall y | y in t ensures Less(s[0], y) {
          if y != x {
            var j :| 1 <= j < |s| && s[j] == y;
          }
        }
      }
      [s[0]] + t
  }

  lemma LessBelowAll(x: string, s: seq<string>)
    requires Ascending(s) && s != [] && Less(x, s[0])
    ensures Ascending([x] + s)
  {
    forall j | 0 < j < |s| ensures Less(x, s[j]) {
      LessTransitive(x, s[0], s[j]);
    }
  }

  lemma {:induction false} SortedExists(ks: set<string>)
    ensures exists r :: SortedOf(r, ks)
    decreases ks
  {
    if ks == {} {
      assert SortedOf([], ks);
    } else {
      var x :| x in ks;
      SortedExists(ks - {x});
      var r :| SortedOf(r, ks - {x});
      var r' := Insert(r, x);
      assert |ks - {x}| == |ks| - 1;
      assert SortedOf(r', ks);
    }
  }

  lemma LessAntisymmetric(x: string, y: string)
    ensures !(Less(x, y) && Less(y, x))
  {
    if Less(x, y) {
      LessAsymmetric(x, y);
    }
  }

  /** The head of an ascending sequence is below every other element. */
  lemma HeadIsLeast(a: seq<string>, y: string)
    requires Ascending(a) && y in a
    ensures y == a[0] || (Less(a[0], y) && y in a[1..])
  {
    var i :| 0 <= i < |a| && a[i] == y;
    if i > 0 {
      assert a[1..][i - 1] == y;
    }
  }

  /** Two ascending sequences with the same elements are the same sequence. */
  lemma {:induction false} AscendingUnique(a: seq<string>, b: seq<string>)
    requires Ascending(a) && Ascending(b)
    requires forall y :: y in a <==> y in b
    ensures a == b
    decreases |a|
  {
    if a == [] {
      assert forall i :: 0 <= i < |b| ==> b[i] in a;
    } else {
      assert a[0] in b && b != [];
      HeadIsLeast(a, b[0]);
      HeadIsLeast(b, a[0]);
      LessAntisymmetric(a[0], b[0]);
      assert a[0] == b[0];
      forall y ensures y in a[1..] <==> y in b[1..] {
        LessIrreflexive(y);
        if y in a[1..] {
          assert Less(a[0], y) by {
            var i :| 0 <= i < |a[1..]| && a[1..][i] == y;
            assert a[i + 1] == y;
          }
          HeadIsLeast(b, y);
        }
        if y in b[1..] {
          assert Less(b[0], y) by {
            var i :| 0 <= i < |b[1..]| && b[1..][i] == y;
            assert b[i + 1] == y;
          }
          HeadIsLeast(a, y);
        }
      }
      AscendingUnique(a[1..], b[1..]);
      assert a == [a[0]] + a[1..] && b == [b[0]] + b[1..];
    }
  }

  /** The keys of a Go map in the order `sort.Strings` puts them. */
  ghost function SortedKeys(ks: set<string>): (r: seq<string>)
    ensures SortedOf(r, ks)
  {
    SortedExists(ks);
    var r :| SortedOf(r, ks);
    r
  }

  lemma SortedKeysSingleton(x: string)
    ensures SortedKeys({x}) == [x]
  {
    var r := SortedKeys({x});
    assert SortedOf([x], {x});
    AscendingUnique(r, [x]);
  }

  /** The registry's idiom "collect the keys of a map into a slice, then
      `sort.Strings` it": keys are inserted one at a time into an ascending
      sequence, which is the same result. */
  method SortedKeysOf(ks: set<string>) returns (r: seq<string>)
    ensures r == SortedKeys(ks)
  {
    r := [];
    var rest := ks;
    while rest != {}
      invariant rest <= ks
      invariant SortedOf(r, ks - rest)
      decreases rest
    {
      var k :| k in rest;
      assert k !in r;
      r := Insert(r, k);
      assert ks - (rest - {k}) == (ks - rest) + {k};
      rest := rest - {k};
    }
    assert ks - rest == ks;
    AscendingUnique(r, SortedKeys(ks));
  }

  // ----- the compound key `name + "|" + labelName` -----

  /** Go's `name + "|" + labelName`: the metric name, then the bar, then the
      label name. */
  function Key(name: string, labelName: string): (r: string)
    ensures |r| == |name| + 1 + |labelName| && r[|name|] == '|'
    ensures r[..|name|] == name && r[|name| + 1..] == labelName
  {
    name + "|" + labelName
  }

  /** Position of the first `|` in `s`. */
  function FirstBar(s: string): (i: nat)
    requires '|' in s
    ensures i < |s| && s[i] == '|' && '|' !in s[..i]
  {
    if s[0] == '|' then 0
    else
      assert '|' in s[1..];
      var j := FirstBar(s[1..]);
      assert s[..j + 1] == [s[0]] + s[1..][..j];
      j + 1
  }

  /** Go's `strings.SplitN(key, "|", 2)`: the text before the first `|` and the
      text after it. The source indexes `parts[1]` unchecked, so a key without a
      `|` is outside what it handles. */
  function SplitKey(key: string): (parts: (string, string))
    requires '|' in key
    ensures key == parts.0 + "|" + parts.1 && '|' !in parts.0
  {
    var i := FirstBar(key);
    assert key == key[..i] + "|" + key[i + 1..];
    (key[..i], key[i + 1..])
  }

  /** The first `|` is the one at `i` when nothing before `i` is a `|`. */
  lemma FirstBarAt(s: string, i: nat)
    requires i < |s| && s[i] == '|'
    requires forall k :: 0 <= k < i ==> s[k] != '|'
    ensures '|' in s && FirstBar(s) == i
  {
    assert s[i] in s;
    var j := FirstBar(s);
    assert forall k :: 0 <= k < j ==> s[k] != '|' by {
      forall k | 0 <= k < j ensures s[k] != '|' {
        assert s[..j][k] == s[k];
      }
    }
  }

  /** Splitting the stored key gives back the metric name and the label name
      whenever the metric name has no `|` in it. */
  lemma SplitKeyOfKey(name: string, labelName: string)
    requires '|' !in name
    ensures '|' in Key(name, labelName)
    ensures SplitKey(Key(name, labelName)) == (name, labelName)
  {
    var key := Key(name, labelName);
    assert forall k :: 0 <= k < |name| ==> key[k] == name[k];
    FirstBarAt(key, |name|);
    assert key[..|name|] == name;
    assert key[|name| + 1..] == labelName;
  }

  /** With a `|` inside the metric name two different (name, label) pairs share
      one registry entry, and splitting gives neither back. */
  lemma KeyCollision()
    ensures Key("a|b", "c") == Key("a", "b|c")
    ensures SplitKey(Key("a|b", "c")) == ("a", "b|c")
  {
    SplitKeyOfKey("a", "b|c");
  }

  // ----- strconv.FormatUint(n, 10) -----

  function Digit(d: nat): (c: char)
    requires d < 10
  {
    ('0' as int + d) as char
  }

  /** Base-10 digits of `n`, most significant first, without leading zeros. */
  function Decimal(n: nat): (r: string)
    ensures |r| >= 1 && forall i :: 0 <= i < |r| ==> '0' <= r[i] <= '9'
    ensures |r| > 1 ==> r[0] != '0'
  {
    if n < 10 then [Digit(n)] else Decimal(n / 10) + [Digit(n % 10)]
  }

  /** `strconv.ParseUint(s, 10, ...)` without the range check: the number a
      string of decimal digits denotes. */
  function ParseDecimal(s: string): (n: nat)
    requires forall i :: 0 <= i < |s| ==> '0' <= s[i] <= '9'
  {
    if s == [] then 0 else ParseDecimal(s[..|s| - 1]) * 10 + (s[|s| - 1] as int - '0' as int)
  }

  /** FormatUint loses nothing: parsing its digits gives the number back. */
  lemma {:induction false} DecimalRoundTrip(n: nat)
    ensures ParseDecimal(Decimal(n)) == n
  {
    if n >= 10 {
      DecimalRoundTrip(n / 10);
      var r := Decimal(n);
      assert r[..|r| - 1] == Decimal(n / 10);
    }
  }

  // ----- strconv.Quote -----

  /** The escape `strconv.Quote` writes for one character: a backslash before
      `"` and `\`, the C escapes for the seven control characters that have
      one, the character itself otherwise. */
  function EscapeChar(c: char): (r: string)
    ensures '\n' !in r
  {
    if c == '"' then "\\\""
    else if c == '\\' then "\\\\"
    else if c == '\U{7}' then "\\a"
    else if c == '\U{8}' then "\\b"
    else if c == '\U{C}' then "\\f"
    else if c == '\n' then "\\n"
    else if c == '\r' then "\\r"
    else if c == '\t' then "\\t"
    else if c == '\U{B}' then "\\v"
    else [c]
  }

  /** The escaped text has no line break: a newline becomes `\n`. */
  function Escape(s: string): (r: string)
    ensures '\n' !in r
  {
    if s == [] then [] else EscapeChar(s[0]) + Escape(s[1..])
  }

  /** Go's `strconv.Quote`, for text without other control characters: the
      escaped text between double quotes, on one line, reading back as `s`. */
  function Quote(s: string): string
  {
    "\"" + Escape(s) + "\""
  }

  /** The quoted text is one line between double quotes and reads back as `s`. */
  lemma QuoteReadsBack(s: string)
    ensures |Quote(s)| >= 2 && Quote(s)[0] == '"' && Quote(s)[|Quote(s)| - 1] == '"'
    ensures '\n' !in Quote(s)
    ensures Unescape(Quote(s)[1..|Quote(s)| - 1]) == Some(s)
  {
    EscapeRoundTrip(s);
    assert Quote(s)[1..|Quote(s)| - 1] == Escape(s);
  }

  /** Turning underscores into spaces adds no line break. */
  lemma SpacedKeepsLines(s: string)
    requires '\n' !in s
    ensures '\n' !in Spaced(s)
  {
    var r := Spaced(s);
    forall i | 0 <= i < |r| ensures r[i] != '\n' {
      assert r[i] == if s[i] == '_' then ' ' else s[i];
    }
  }

  /** A whole exposition line: text with no line break, then one newline. */
  predicate OneLine(s: string)
  {
    |s| > 0 && s[|s| - 1] == '\n' && '\n' !in s[..|s| - 1]
  }

  /** Appending a newline makes one line exactly when the text has none. */
  lemma NewlineEnds(s: string)
    ensures |s + "\n"| > 0 && (s + "\n")[|s + "\n"| - 1] == '\n'
    ensures OneLine(s + "\n") <==> '\n' !in s
  {
    assert (s + "\n")[..|s|] == s;
  }

  /** The character an escape letter after a backslash stands for. */
  function Unescaped(c: char): (r: char)
  {
    match c
    case 'a' => '\U{7}'
    case 'b' => '\U{8}'
    case 'f' => '\U{C}'
    case 'n' => '\n'
    case 'r' => '\r'
    case 't' => '\t'
    case 'v' => '\U{B}'
    case _ => c
  }

  /** The inverse reading of `Escape` (the unquoting half of `strconv.Unquote`);
      `None` for a text that ends in a lone backslash. */
  function Unescape(s: string): (r: Option<string>)
    decreases |s|
  {
    if s == [] then Some([])
    else if s[0] == '\\' then
      if |s| < 2 then None
      else match Unescape(s[2..])
        case Some(t) => Some([Unescaped(s[1])] + t)
        case None => None
    else match Unescape(s[1..])
      case Some(t) => Some([s[0]] + t)
      case None => None
  }

  datatype Option<T> = None | Some(value: T)

  /** Quoting loses nothing: the escaped text reads back as the original. */
  lemma {:induction false} EscapeRoundTrip(s: string)
    ensures Unescape(Escape(s)) == Some(s)
  {
    if s != [] {
      EscapeRoundTrip(s[1..]);
      UnescapeStep(s[0], Escape(s[1..]), s[1..]);
      assert s == [s[0]] + s[1..];
    }
  }

  /** Each escape is either a backslash and a letter that reads back as the
      character, or the character itself, which is then not a backslash. */
  lemma EscapeCharShape(c: char)
    ensures || (|EscapeChar(c)| == 2 && EscapeChar(c)[0] == '\\' && Unescaped(EscapeChar(c)[1]) == c)
            || (EscapeChar(c) == [c] && c != '\\')
  {
  }

  /** Reading one escape in front of text that reads back as `t`. */
  lemma UnescapeStep(c: char, rest: string, t: string)
    requires Unescape(rest) == Some(t)
    ensures Unescape(EscapeChar(c) + rest) == Some([c] + t)
  {
    var e := EscapeChar(c);
    EscapeCharShape(c);
    if |e| == 2 {
      assert (e + rest)[2..] == rest;
    } else {
      assert (e + rest)[1..] == rest;
    }
  }

  /** Text without `"`, `\` or control characters is quoted as it stands. */
  lemma {:induction false} EscapePlain(s: string)
    requires forall i :: 0 <= i < |s| ==> s[i] != '"' && s[i] != '\\' && s[i] >= ' '
    ensures Escape(s) == s
  {
    if s != [] {
      EscapePlain(s[1..]);
      assert s == [s[0]] + s[1..];
    }
  }

  // ----- strings.ReplaceAll(name, "_", " ") -----

  /** The metric name with every `_` replaced by a space, for HELP lines. */
  function Spaced(s: string): (r: string)
    ensures |r| == |s| && '_' !in r
    ensures forall i :: 0 <= i < |s| ==> r[i] == if s[i] == '_' then ' ' else s[i]
  {
    if s == [] then [] else [if s[0] == '_' then ' ' else s[0]] + Spaced(s[1..])
  }
}
