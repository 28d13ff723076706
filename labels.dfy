/**
 * Text helpers of the graph writer: `quote`, `obj_node_id`, `is_identifier`
 * and the mapping case of `edge_label` (objgraph.py:657-680, 727-762).
 */
module Labels {
  import opened RefGraph

  // ---------------------------------------------------------------------
  // str.replace with a one-character pattern
  // ---------------------------------------------------------------------

  /** `s.replace(c, r)`: every occurrence of the character `c` becomes `r`. */
  function Replace(s: string, c: char, r: string): (t: string)
    ensures c !in r ==> c !in t
    ensures c !in s ==> t == s
    ensures forall ch :: ch in t && ch !in r ==> ch in s
  {
    if s == [] then [] else (if s[0] == c then r else [s[0]]) + Replace(s[1..], c, r)
  }

  lemma {:induction false} ReplaceConcat(a: string, b: string, c: char, r: string)
    ensures Replace(a + b, c, r) == Replace(a, c, r) + Replace(b, c, r)
  {
    if a == [] {
      assert a + b == b;
    } else {
      assert (a + b)[0] == a[0];
      assert (a + b)[1..] == a[1..] + b;
      ReplaceConcat(a[1..], b, c, r);
    }
  }

  // ---------------------------------------------------------------------
  // quote (objgraph.py:676-680)
  // ---------------------------------------------------------------------

  const Backslash: char := '\\'
  const DoubleQuote: char := '"'
  const Newline: char := '\n'
  const Nul: char := '\0'

  /** The four ordered replacements of `quote`. */
  function Quote(s: string): (r: string)
    ensures Newline !in r && Nul !in r
    ensures (Backslash !in s && DoubleQuote !in s && Newline !in s && Nul !in s) ==> r == s
  {
    var s1 := Replace(s, Backslash, "\\\\");
    var s2 := Replace(s1, DoubleQuote, "\\\"");
    var s3 := Replace(s2, Newline, "\\n");
    Replace(s3, Nul, "\\\\0")
  }

  /** Reference definition: each character escaped on its own. */
  function EscapeChar(ch: char): string {
    if ch == Backslash then "\\\\"
    else if ch == DoubleQuote then "\\\""
    else if ch == Newline then "\\n"
    else if ch == Nul then "\\\\0"
    else [ch]
  }

  function Escaped(s: string): string {
    if s == [] then [] else EscapeChar(s[0]) + Escaped(s[1..])
  }

  lemma QuoteConcat(a: string, b: string)
    ensures Quote(a + b) == Quote(a) + Quote(b)
  {
    var a1, b1 := Replace(a, Backslash, "\\\\"), Replace(b, Backslash, "\\\\");
    ReplaceConcat(a, b, Backslash, "\\\\");
    var a2, b2 := Replace(a1, DoubleQuote, "\\\""), Replace(b1, DoubleQuote, "\\\"");
    ReplaceConcat(a1, b1, DoubleQuote, "\\\"");
    var a3, b3 := Replace(a2, Newline, "\\n"), Replace(b2, Newline, "\\n");
    ReplaceConcat(a2, b2, Newline, "\\n");
    ReplaceConcat(a3, b3, Nul, "\\\\0");
  }

  lemma QuoteChar(ch: char)
    ensures Quote([ch]) == EscapeChar(ch)
  {
    assert [ch][1..] == [];
    var e1 := if ch == Backslash then "\\\\" else [ch];
    assert Replace([ch], Backslash, "\\\\") == e1 + Replace([], Backslash, "\\\\");
    ReplaceConcat(e1, [], DoubleQuote, "\\\"");
    if ch == Backslash {
      assert e1 == [Backslash] + [Backslash];
      ReplaceConcat([Backslash], [Backslash], DoubleQuote, "\\\"");
      assert Replace([Backslash], DoubleQuote, "\\\"") == [Backslash] + Replace([], DoubleQuote, "\\\"");
      assert Replace(e1, DoubleQuote, "\\\"") == e1;
      ReplaceConcat([Backslash], [Backslash], Newline, "\\n");
      assert Replace([Backslash], Newline, "\\n") == [Backslash] + Replace([], Newline, "\\n");
      assert Replace(e1, Newline, "\\n") == e1;
      ReplaceConcat([Backslash], [Backslash], Nul, "\\\\0");
      assert Replace([Backslash], Nul, "\\\\0") == [Backslash] + Replace([], Nul, "\\\\0");
    } else {
      assert Replace([ch], DoubleQuote, "\\\"") == (if ch == DoubleQuote then "\\\"" else [ch]) + Replace([], DoubleQuote, "\\\"");
    }
  }

  /** `quote` agrees with escaping each character independently. */
  lemma {:induction false} QuoteIsCharwise(s: string)
    ensures Quote(s) == Escaped(s)
  {
    if s == [] {
    } else {
      assert s == [s[0]] + s[1..];
      QuoteConcat([s[0]], s[1..]);
      QuoteChar(s[0]);
      QuoteIsCharwise(s[1..]);
    }
  }

  /** A NUL and the two characters backslash, zero are quoted alike. */
  lemma QuoteMergesNul()
    ensures Quote([Nul]) == Quote([Backslash, '0'])
  {
    QuoteChar(Nul);
    assert [Backslash, '0'] == [Backslash] + ['0'];
    QuoteConcat([Backslash], ['0']);
    QuoteChar(Backslash);
    QuoteChar('0');
  }

  /**
   * How a DOT reader takes a quoted label back: `\\`, `\"` and `\n` are the
   * three escapes; any other backslash stays as it is.
   */
  function Unquote(s: string): string {
    if |s| >= 2 && s[0] == Backslash && s[1] == Backslash then [Backslash] + Unquote(s[2..])
    else if |s| >= 2 && s[0] == Backslash && s[1] == DoubleQuote then [DoubleQuote] + Unquote(s[2..])
    else if |s| >= 2 && s[0] == Backslash && s[1] == 'n' then [Newline] + Unquote(s[2..])
    else if s == [] then []
    else [s[0]] + Unquote(s[1..])
  }

  lemma {:induction false} UnquoteEscaped(s: string)
    requires Nul !in s
    ensures Unquote(Escaped(s)) == s
  {
    if s != [] {
      var e := EscapeChar(s[0]);
      var rest := Escaped(s[1..]);
      assert Escaped(s) == e + rest;
      UnquoteEscaped(s[1..]);
      if s[0] == Backslash || s[0] == DoubleQuote || s[0] == Newline {
        assert (e + rest)[2..] == rest;
      } else {
        assert e == [s[0]];
        assert (e + rest)[1..] == rest;
      }
    }
  }

  /** Round trip: a label without NUL reads back as written. */
  lemma QuoteRoundTrip(s: string)
    requires Nul !in s
    ensures Unquote(Quote(s)) == s
  {
    QuoteIsCharwise(s);
    UnquoteEscaped(s);
  }

  // ---------------------------------------------------------------------
  // '%d' formatting and obj_node_id (objgraph.py:657-658)
  // ---------------------------------------------------------------------

  function DigitChar(d: nat): char
    requires d < 10
  {
    "0123456789"[d]
  }

  predicate IsDigit(ch: char) {
    '0' <= ch <= '9'
  }

  /** Decimal digits of `n`, most significant first, no leading zeros. */
  function Digits(n: nat): (s: string)
    ensures |s| >= 1
    ensures forall i :: 0 <= i < |s| ==> IsDigit(s[i])
  {
    if n < 10 then [DigitChar(n)] else Digits(n / 10) + [DigitChar(n % 10)]
  }

  function DigitValue(ch: char): nat
    requires IsDigit(ch)
  {
    (ch as int - '0' as int) as nat
  }

  function ParseDigits(s: string): nat
    requires forall i :: 0 <= i < |s| ==> IsDigit(s[i])
  {
    if s == [] then 0 else 10 * ParseDigits(s[..|s| - 1]) + DigitValue(s[|s| - 1])
  }

  lemma {:induction false} ParseDigitsRoundTrip(n: nat)
    ensures ParseDigits(Digits(n)) == n
  {
    var s := Digits(n);
    if n < 10 {
      assert s[..|s| - 1] == [];
    } else {
      assert s[..|s| - 1] == Digits(n / 10);
      ParseDigitsRoundTrip(n / 10);
    }
  }

  /** Python's `'%d' % i`. */
  function Decimal(i: int): string {
    if i < 0 then "-" + Digits(-i) else Digits(i)
  }

  /** `('o%d' % id(obj)).replace('-', '_')`. */
  function ObjNodeId(x: Obj): (r: string)
    ensures '-' !in r
  {
    Replace("o" + Decimal(x), '-', "_")
  }

  lemma DigitsHaveNoDash(n: nat)
    ensures '-' !in Digits(n)
  {
  }

  lemma ObjNodeIdShape(x: Obj)
    ensures ObjNodeId(x) == "o" + (if x < 0 then "_" else "") + Digits(if x < 0 then -x else x)
  {
    var d := Digits(if x < 0 then -x else x);
    DigitsHaveNoDash(if x < 0 then -x else x);
    assert Replace(d, '-', "_") == d;
    assert Replace("o", '-', "_") == "o" by {
      assert "o"[1..] == [];
    }
    if x < 0 {
      assert Replace("-", '-', "_") == "_" by {
        assert "-"[1..] == [];
      }
      assert "o" + Decimal(x) == "o" + "-" + d;
      ReplaceConcat("o" + "-", d, '-', "_");
      ReplaceConcat("o", "-", '-', "_");
    } else {
      assert "o" + Decimal(x) == "o" + d;
      ReplaceConcat("o", d, '-', "_");
    }
  }

  /** Reads a node name back to the identity it was made from. */
  function ParseNodeId(s: string): Option<Obj> {
    if |s| >= 3 && s[0] == 'o' && s[1] == '_' && forall i :: 2 <= i < |s| ==> IsDigit(s[i]) then
      var n: int := ParseDigits(s[2..]);
      Some(-n)
    else if |s| >= 2 && s[0] == 'o' && forall i :: 1 <= i < |s| ==> IsDigit(s[i]) then
      Some(ParseDigits(s[1..]))
    else None
  }

  /** Round trip: the node name determines the object. */
  lemma NodeIdRoundTrip(x: Obj)
    ensures ParseNodeId(ObjNodeId(x)) == Some(x)
  {
    ObjNodeIdShape(x);
    var n := if x < 0 then -x else x;
    var d := Digits(n);
    ParseDigitsRoundTrip(n);
    var s := ObjNodeId(x);
    if x < 0 {
      assert s[2..] == d && s[..2] == "o_";
      assert forall i :: 2 <= i < |s| ==> IsDigit(s[i]) by {
        forall i | 2 <= i < |s| ensures IsDigit(s[i]) {
          assert s[i] == d[i - 2];
        }
      }
    } else {
      assert s[1..] == d && s[0] == 'o';
      assert forall i :: 1 <= i < |s| ==> IsDigit(s[i]) by {
        forall i | 1 <= i < |s| ensures IsDigit(s[i]) {
          assert s[i] == d[i - 1];
        }
      }
    }
  }

  /** Distinct objects get distinct node names. */
  lemma NodeIdInjective(x: Obj, y: Obj)
    requires ObjNodeId(x) == ObjNodeId(y)
    ensures x == y
  {
    NodeIdRoundTrip(x);
    NodeIdRoundTrip(y);
  }

  // ---------------------------------------------------------------------
  // is_identifier: re.compile('[a-zA-Z_][a-zA-Z_0-9]*$').match
  // ---------------------------------------------------------------------

  predicate IdentStart(ch: char) {
    ('a' <= ch <= 'z') || ('A' <= ch <= 'Z') || ch == '_'
  }

  predicate IdentChar(ch: char) {
    IdentStart(ch) || IsDigit(ch)
  }

  /** What the greedy `[a-zA-Z_0-9]*` consumes from the front of `s`. */
  function WordRun(s: string): (k: nat)
    ensures k <= |s|
    ensures forall i :: 0 <= i < k ==> IdentChar(s[i])
    ensures k < |s| ==> !IdentChar(s[k])
  {
    if s != [] && IdentChar(s[0]) then 1 + WordRun(s[1..]) else 0
  }

  /**
   * The regular expression, matched from the start: one start character,
   * the greedy run, then `$`, which holds at the end of the string or just
   * before a newline that ends it.
   */
  function IsIdentifier(s: string): bool {
    |s| >= 1 && IdentStart(s[0]) &&
    var k := 1 + WordRun(s[1..]);
    k == |s| || (k == |s| - 1 && s[k] == Newline)
  }

  /** A name in the usual sense, with nothing after it. */
  ghost predicate ProperIdentifier(w: string) {
    |w| >= 1 && IdentStart(w[0]) && forall i :: 1 <= i < |w| ==> IdentChar(w[i])
  }

  lemma {:induction false} WordRunOver(t: string, u: string)
    requires forall i :: 0 <= i < |t| ==> IdentChar(t[i])
    ensures WordRun(t + u) == |t| + WordRun(u)
  {
    if t == [] {
      assert t + u == u;
    } else {
      assert (t + u)[0] == t[0];
      assert (t + u)[1..] == t[1..] + u;
      WordRunOver(t[1..], u);
    }
  }

  /** `is_identifier` accepts exactly a name, or a name followed by one newline. */
  lemma IsIdentifierMeaning(s: string)
    ensures IsIdentifier(s) <==>
      ProperIdentifier(s) || (|s| >= 2 && s[|s| - 1] == Newline && ProperIdentifier(s[..|s| - 1]))
  {
    if |s| >= 1 && IdentStart(s[0]) {
      var t := s[1..];
      var k := 1 + WordRun(t);
      if ProperIdentifier(s) {
        WordRunOver(t, []);
        assert t + [] == t;
      }
      if |s| >= 2 && s[|s| - 1] == Newline && ProperIdentifier(s[..|s| - 1]) {
        var w := s[1..|s| - 1];
        assert t == w + [Newline];
        WordRunOver(w, [Newline]);
        assert [Newline][1..] == [];
      }
      if IsIdentifier(s) && k < |s| {
        var p := s[..|s| - 1];
        assert ProperIdentifier(p) by {
          forall i | 1 <= i < |p| ensures IdentChar(p[i]) { assert p[i] == t[i - 1]; }
        }
      }
    }
  }

  // ---------------------------------------------------------------------
  // edge_label, mapping case (objgraph.py:751-759)
  // ---------------------------------------------------------------------

  /**
   * A key of a mapping: a string (`str`, `unicode` or a subclass of
   * either, with its text), or any other object; each with its type name.
   * `repr` is what `safe_repr` gives for it.
   */
  datatype Key = StrKey(text: string, typeName: string, repr: string) | OtherKey(typeName: string, repr: string)

  /** The edge attribute written for an entry whose value is the target. */
  function KeyLabel(k: Key): string {
    if k.StrKey? && IsIdentifier(k.text) then " [label=\"" + Quote(k.text) + "\",weight=2]"
    else " [label=\"" + Quote(k.typeName + "\n" + k.repr) + "\"]"
  }

  /**
   * The mapping case of `edge_label`: the first entry (in iteration order)
   * whose value is the target decides the label; none gives no label.
   */
  function DictEdgeLabel(items: seq<(Key, Obj)>, target: Obj): (r: string)
    ensures r == "" <==> forall i :: 0 <= i < |items| ==> items[i].1 != target
    ensures forall i :: 0 <= i < |items| && items[i].1 == target &&
                        (forall j :: 0 <= j < i ==> items[j].1 != target) ==>
                          r == KeyLabel(items[i].0)
  {
    if items == [] then ""
    else if items[0].1 == target then KeyLabel(items[0].0)
    else
      var rest := items[1..];
      var r := DictEdgeLabel(rest, target);
      assert forall i :: 0 <= i < |items| && items[i].1 == target &&
                          (forall j :: 0 <= j < i ==> items[j].1 != target) ==>
                            r == KeyLabel(items[i].0)
      by {
        forall i | 0 <= i < |items| && items[i].1 == target &&
          (forall j :: 0 <= j < i ==> items[j].1 != target)
          ensures r == KeyLabel(items[i].0)
        {
          assert rest[i - 1] == items[i];
          forall j | 0 <= j < i - 1 ensures rest[j].1 != target {
            assert rest[j] == items[j + 1];
          }
        }
      }
      r
  }
}
