/**
 * Small value-level helpers shared by the model: an Option type, and the
 * handful of JavaScript string operations the proxy relies on (`trim`,
 * `startsWith`, `includes`, `split`, decimal rendering of numbers), each
 * stated over `seq<char>`.
 */
module Util {

  datatype Option<+T> = None | Some(value: T)

  /** The characters `String.prototype.trim` removes (line terminators,
   *  ASCII blanks, no-break space, byte-order mark and the Unicode space
   *  separators). */
  predicate IsSpace(c: char) {
    c == ' ' || c == '\t' || c == '\n' || c == '\r' || c == '\U{000B}' || c == '\U{000C}'
    || c == '\U{00A0}' || c == '\U{FEFF}' || c == '\U{1680}' || ('\U{2000}' <= c <= '\U{200A}')
    || c == '\U{2028}' || c == '\U{2029}' || c == '\U{202F}' || c == '\U{205F}' || c == '\U{3000}'
  }

  /** The number of white-space characters at the front of `s`. */
  function LeadingBlanks(s: string): (n: nat)
    ensures n <= |s|
  {
    if s == [] || !IsSpace(s[0]) then 0 else 1 + LeadingBlanks(s[1..])
  }

  /** The length of `s` without its white-space tail. */
  function KeptLength(s: string): (n: nat)
    ensures n <= |s|
  {
    if s == [] || !IsSpace(s[|s| - 1]) then |s| else KeptLength(s[..|s| - 1])
  }

  lemma {:induction false} LeadingBlanksSpec(s: string)
    ensures forall i :: 0 <= i < LeadingBlanks(s) ==> IsSpace(s[i])
    ensures LeadingBlanks(s) == |s| || !IsSpace(s[LeadingBlanks(s)])
  {
    if s != [] && IsSpace(s[0]) {
      LeadingBlanksSpec(s[1..]);
      forall i | 0 <= i < LeadingBlanks(s) ensures IsSpace(s[i]) {
        if i > 0 { assert s[i] == s[1..][i - 1]; }
      }
    }
  }

  lemma {:induction false} KeptLengthSpec(s: string)
    ensures forall i :: KeptLength(s) <= i < |s| ==> IsSpace(s[i])
    ensures KeptLength(s) == 0 || !IsSpace(s[KeptLength(s) - 1])
  {
    if s != [] && IsSpace(s[|s| - 1]) {
      KeptLengthSpec(s[..|s| - 1]);
    }
  }

  function TrimStart(s: string): string { s[LeadingBlanks(s)..] }

  function TrimEnd(s: string): string { s[..KeptLength(s)] }

  /** `s.trim()`: the longest infix of `s` whose ends are not white space. */
  function Trim(s: string): (r: string)
    ensures |r| <= |s|
  {
    TrimEnd(TrimStart(s))
  }

  /** A trimmed string keeps no blank at either end; it is empty exactly
   *  when the input was all blanks. */
  lemma TrimShape(s: string)
    ensures Trim(s) == [] || (!IsSpace(Trim(s)[0]) && !IsSpace(Trim(s)[|Trim(s)| - 1]))
    ensures Trim(s) == [] <==> forall i :: 0 <= i < |s| ==> IsSpace(s[i])
  {
    var a := LeadingBlanks(s);
    var t := TrimStart(s);
    LeadingBlanksSpec(s);
    KeptLengthSpec(t);
    var r := Trim(s);
    assert r == t[..KeptLength(t)];
    if r != [] {
      assert r[0] == t[0] == s[a];
    }
    if r == [] {
      assert a == |s|;
    } else {
      assert !IsSpace(s[a]);
    }
  }

  /** Trimming twice changes nothing. */
  lemma TrimIdempotent(s: string)
    ensures Trim(Trim(s)) == Trim(s)
  {
    TrimShape(s);
    var r := Trim(s);
    if r != [] {
      assert LeadingBlanks(r) == 0;
      assert TrimStart(r) == r;
      assert KeptLength(r) == |r|;
    }
  }

  predicate StartsWith(s: string, prefix: string) {
    |prefix| <= |s| && s[..|prefix|] == prefix
  }

  /** `s.includes(t)`. */
  predicate Contains(s: string, t: string) {
    StartsWith(s, t) || (s != [] && Contains(s[1..], t))
  }

  /** `s.split(sep)` for a one-character separator: the pieces between
   *  separators, always at least one. */
  function Split(s: string, sep: char): (r: seq<string>)
    ensures |r| >= 1
  {
    if s == [] then [[]]
    else
      var rest := Split(s[1..], sep);
      if s[0] == sep then [[]] + rest
      else [[s[0]] + rest[0]] + rest[1..]
  }

  /** No piece holds the separator. */
  lemma {:induction false} SplitPieces(s: string, sep: char)
    ensures forall k :: 0 <= k < |Split(s, sep)| ==> sep !in Split(s, sep)[k]
  {
    if s != [] {
      SplitPieces(s[1..], sep);
      var rest := Split(s[1..], sep);
      if s[0] != sep {
        assert sep !in [s[0]] + rest[0];
        assert forall k :: 1 <= k < |rest| ==> Split(s, sep)[k] == rest[k];
      } else {
        assert forall k :: 1 <= k < |rest| + 1 ==> Split(s, sep)[k] == rest[k - 1];
      }
    }
  }

  /** Joining the pieces with the separator gives the input back. */
  function Join(pieces: seq<string>, sep: char): string
    requires |pieces| >= 1
  {
    if |pieces| == 1 then pieces[0] else pieces[0] + [sep] + Join(pieces[1..], sep)
  }

  lemma {:induction false} SplitJoin(s: string, sep: char)
    ensures Join(Split(s, sep), sep) == s
  {
    if s != [] {
      SplitJoin(s[1..], sep);
      var rest := Split(s[1..], sep);
      if s[0] != sep {
        if |rest| == 1 {
          assert Join(Split(s, sep), sep) == [s[0]] + rest[0];
        } else {
          var r := Split(s, sep);
          assert r[1..] == rest[1..];
          assert Join(r, sep) == [s[0]] + rest[0] + [sep] + Join(rest[1..], sep);
        }
      }
    }
  }

  /** Text without a separator is a single piece. */
  lemma {:induction false} SplitNoSeparator(s: string, sep: char)
    requires sep !in s
    ensures Split(s, sep) == [s]
  {
    if s != [] {
      assert s[0] in s;
      assert forall c :: c in s[1..] ==> c in s;
      SplitNoSeparator(s[1..], sep);
      assert [s[0]] + s[1..] == s;
    }
  }

  /** One line ended by the separator splits into the line and an empty
   *  remainder. */
  lemma SplitLine(s: string, sep: char)
    requires sep !in s
    ensures Split(s + [sep], sep) == [s, []]
  {
    SplitPrepend(s, [sep], sep);
    assert Split([sep][1..], sep) == [[]];
    assert s + [] == s;
  }

  /** A piece without separator in front of the text just lengthens the
   *  first piece. */
  lemma {:induction false} SplitPrepend(b: string, c: string, sep: char)
    requires sep !in b
    ensures Split(b + c, sep) == [b + Split(c, sep)[0]] + Split(c, sep)[1..]
  {
    var sc := Split(c, sep);
    if b == [] {
      assert b + c == c && b + sc[0] == sc[0];
      assert [sc[0]] + sc[1..] == sc;
    } else {
      SplitPrepend(b[1..], c, sep);
      assert (b + c)[1..] == b[1..] + c;
      var rest := Split(b[1..] + c, sep);
      assert b[0] in b;
      assert (b + c)[0] == b[0] != sep;
      assert Split(b + c, sep) == [[b[0]] + rest[0]] + rest[1..];
      assert rest[0] == b[1..] + sc[0] && rest[1..] == sc[1..];
      assert [b[0]] + rest[0] == b + sc[0] by {
        assert [b[0]] + (b[1..] + sc[0]) == ([b[0]] + b[1..]) + sc[0];
        assert [b[0]] + b[1..] == b;
      }
    }
  }

  /** Splitting a concatenation: the complete pieces of the first part,
   *  then the split of its unfinished tail followed by the second part. */
  lemma {:induction false} SplitAppend(t: string, c: string, sep: char)
    ensures Split(t + c, sep)
         == Split(t, sep)[..|Split(t, sep)| - 1] + Split(Split(t, sep)[|Split(t, sep)| - 1] + c, sep)
  {
    if t != [] {
      SplitAppend(t[1..], c, sep);
      assert (t + c)[1..] == t[1..] + c;
      var rt := Split(t[1..], sep);
      if t[0] == sep {
        SplitAppendAtSeparator(t, c, sep);
      } else if |rt| == 1 {
        SplitAppendSinglePiece(t, c, sep);
      } else {
        SplitAppendManyPieces(t, c, sep);
      }
    }
  }

  ghost predicate SplitAppendLaw(t: string, c: string, sep: char) {
    Split(t + c, sep)
      == Split(t, sep)[..|Split(t, sep)| - 1] + Split(Split(t, sep)[|Split(t, sep)| - 1] + c, sep)
  }

  lemma SplitAppendAtSeparator(t: string, c: string, sep: char)
    requires t != [] && t[0] == sep && (t + c)[1..] == t[1..] + c
    requires SplitAppendLaw(t[1..], c, sep)
    ensures SplitAppendLaw(t, c, sep)
  {
    var rt := Split(t[1..], sep);
    var x := Split(rt[|rt| - 1] + c, sep);
    Prefixed(rt, x, []);
    assert Split(t, sep) == [[]] + rt;
    assert Split(t + c, sep) == [[]] + (rt[..|rt| - 1] + x);
  }

  /** Sequence bookkeeping for the case above: one more piece in front. */
  lemma Prefixed<T>(rt: seq<T>, x: seq<T>, h: T)
    requires |rt| >= 1
    ensures ([h] + rt)[..|rt|] == [h] + rt[..|rt| - 1]
    ensures ([h] + rt)[|rt|] == rt[|rt| - 1]
    ensures [h] + (rt[..|rt| - 1] + x) == [h] + rt[..|rt| - 1] + x
  {
  }

  lemma SplitAppendSinglePiece(t: string, c: string, sep: char)
    requires t != [] && t[0] != sep && (t + c)[1..] == t[1..] + c
    requires |Split(t[1..], sep)| == 1
    requires SplitAppendLaw(t[1..], c, sep)
    ensures SplitAppendLaw(t, c, sep)
  {
    var rt := Split(t[1..], sep);
    var x := rt[0] + c;
    var y := [t[0]] + x;
    var sx := Split(x, sep);
    assert Split(t[1..] + c, sep) == sx by { assert rt[..0] + sx == sx; }
    assert Split(t + c, sep) == [[t[0]] + sx[0]] + sx[1..];
    assert y[0] == t[0] && y[1..] == x;
    assert Split(y, sep) == [[t[0]] + sx[0]] + sx[1..];
    assert Split(t, sep) == [[t[0]] + rt[0]];
    assert [t[0]] + rt[0] + c == y;
  }

  lemma SplitAppendManyPieces(t: string, c: string, sep: char)
    requires t != [] && t[0] != sep && (t + c)[1..] == t[1..] + c
    requires |Split(t[1..], sep)| > 1
    requires SplitAppendLaw(t[1..], c, sep)
    ensures SplitAppendLaw(t, c, sep)
  {
    var rt := Split(t[1..], sep);
    var x := Split(rt[|rt| - 1] + c, sep);
    var head := [t[0]] + rt[0];
    Regroup(rt, x, head);
    assert Split(t, sep) == [head] + rt[1..];
    assert Split(t + c, sep) == [[t[0]] + (rt[..|rt| - 1] + x)[0]] + (rt[..|rt| - 1] + x)[1..];
  }

  /** Sequence bookkeeping for the case above: replacing the first of
   *  several pieces keeps the last one and the ones between. */
  lemma Regroup<T>(rt: seq<T>, x: seq<T>, h: T)
    requires |rt| > 1
    ensures ([h] + rt[1..])[..|rt| - 1] == [h] + rt[1..|rt| - 1]
    ensures ([h] + rt[1..])[|rt| - 1] == rt[|rt| - 1]
    ensures (rt[..|rt| - 1] + x)[0] == rt[0]
    ensures (rt[..|rt| - 1] + x)[1..] == rt[1..|rt| - 1] + x
    ensures [h] + (rt[1..|rt| - 1] + x) == [h] + rt[1..|rt| - 1] + x
  {
  }

  /** The pieces that a separator closed: all but the last. */
  function Complete(s: string, sep: char): seq<string> {
    var p := Split(s, sep);
    p[..|p| - 1]
  }

  /** The piece still open at the end (`pieces.pop()`). */
  function Pending(s: string, sep: char): (r: string)
    ensures sep !in r
  {
    SplitPieces(s, sep);
    var p := Split(s, sep);
    p[|p| - 1]
  }

  /** Text without a separator closes nothing and stays open. */
  lemma CompleteNoSeparator(s: string, sep: char)
    requires sep !in s
    ensures Complete(s, sep) == [] && Pending(s, sep) == s
  {
    SplitNoSeparator(s, sep);
  }

  /** Text that arrives in two parts closes the same pieces as text that
   *  arrives at once, and leaves the same piece open. */
  lemma CompleteAppend(t: string, c: string, sep: char)
    ensures Complete(t + c, sep) == Complete(t, sep) + Complete(Pending(t, sep) + c, sep)
    ensures Pending(t + c, sep) == Pending(Pending(t, sep) + c, sep)
  {
    var pt := Split(t, sep);
    var q := Split(pt[|pt| - 1] + c, sep);
    SplitAppend(t, c, sep);
    assert Split(t + c, sep) == pt[..|pt| - 1] + q;
    DropLastAppend(pt[..|pt| - 1], q);
  }

  lemma ConcatAssoc<T>(a: seq<T>, b: seq<T>, c: seq<T>)
    ensures a + (b + c) == (a + b) + c
  {
  }

  /** Sequence bookkeeping: dropping the last element of `p + q`, for a
   *  non-empty `q`. */
  lemma DropLastAppend<T>(p: seq<T>, q: seq<T>)
    requires q != []
    ensures (p + q)[..|p + q| - 1] == p + q[..|q| - 1]
    ensures (p + q)[|p + q| - 1] == q[|q| - 1]
  {
  }

  /** Decimal digits of a number, as `String(n)` / template literals print it. */
  function NatToString(n: nat): (r: string)
    ensures |r| >= 1
    ensures forall k :: 0 <= k < |r| ==> '0' <= r[k] <= '9'
    ensures n < 10 <==> |r| == 1
    decreases n
  {
    if n < 10 then [Digit(n)] else NatToString(n / 10) + [Digit(n % 10)]
  }

  function Digit(d: nat): (c: char)
    requires d < 10
    ensures '0' <= c <= '9'
  {
    ['0', '1', '2', '3', '4', '5', '6', '7', '8', '9'][d]
  }

  function DigitValue(c: char): nat {
    if '0' <= c <= '9' then (c as int - '0' as int) as nat else 0
  }

  function ParseDecimal(s: string): nat {
    if s == [] then 0 else ParseDecimal(s[..|s| - 1]) * 10 + DigitValue(s[|s| - 1])
  }

  /** Reading the digits back gives the number: the rendering is injective,
   *  so distinct indices yield distinct identifiers. */
  lemma {:induction false} NatToStringRoundTrip(n: nat)
    ensures ParseDecimal(NatToString(n)) == n
    decreases n
  {
    if n >= 10 {
      NatToStringRoundTrip(n / 10);
      var s := NatToString(n);
      assert s[..|s| - 1] == NatToString(n / 10);
      assert DigitValue(Digit(n % 10)) == n % 10;
    } else {
      assert DigitValue(Digit(n)) == n;
    }
  }

  /** The pieces joined with nothing between them (`chunks.join('')`). */
  function Concat(chunks: seq<string>): string {
    if chunks == [] then [] else chunks[0] + Concat(chunks[1..])
  }
}
