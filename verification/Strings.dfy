/** Strings as the repository uses them: joining, splitting on one character, and decimal numbers. */
module Strings {

  datatype Option<+T> = None | Some(value: T)

  datatype Result<+T> = Ok(value: T) | Err(error: string)

  /** strings.Join for strings. */
  function Join(parts: seq<string>, sep: string): string {
    if |parts| == 0 then "" else
    if |parts| == 1 then parts[0] else parts[0] + sep + Join(parts[1..], sep)
  }

  function IndexOf(s: string, c: char): (i: nat)
    ensures i <= |s| && c !in s[..i]
    ensures i < |s| ==> s[i] == c
  {
    if |s| == 0 || s[0] == c then 0 else 1 + IndexOf(s[1..], c)
  }

  /** The parts between the occurrences of `c`. */
  function Split(s: string, c: char): (parts: seq<string>)
    ensures |parts| > 0
    decreases |s|
  {
    var i := IndexOf(s, c);
    if i == |s| then [s] else [s[..i]] + Split(s[i + 1..], c)
  }

  lemma {:induction false} IndexOfAppend(a: string, c: char, b: string)
    requires c !in a
    ensures IndexOf(a + b, c) == |a| + IndexOf(b, c)
  {
    if |a| == 0 {
      assert a + b == b;
    } else {
      assert (a + b)[1..] == a[1..] + b;
      IndexOfAppend(a[1..], c, b);
    }
  }

  lemma IndexOfHead(c: char, s: string)
    ensures IndexOf([c] + s, c) == 0
  {
  }

  /** A text up to a character that does not occur before it, after a common beginning. */
  lemma CutApart(pre: string, c: char, a: string, x: string, b: string, y: string)
    requires c !in a && c !in b
    ensures pre + a + [c] + x == pre + b + [c] + y <==> a == b && x == y
  {
    var s, t := pre + a + [c] + x, pre + b + [c] + y;
    assert s[|pre|..] == a + ([c] + x) && t[|pre|..] == b + ([c] + y);
    IndexOfAppend(a, c, [c] + x);
    IndexOfAppend(b, c, [c] + y);
    IndexOfHead(c, x);
    IndexOfHead(c, y);
    if s == t {
      assert s[|pre|..][..|a|] == a && t[|pre|..][..|b|] == b;
      assert s[|pre|..][|a| + 1..] == x && t[|pre|..][|b| + 1..] == y;
    }
  }

  lemma {:induction false} SplitJoin(parts: seq<string>, c: char)
    requires |parts| > 0
    requires forall p | p in parts :: c !in p
    ensures Split(Join(parts, [c]), c) == parts
  {
    hide IndexOf;
    if |parts| == 1 {
      IndexOfAppend(parts[0], c, "");
      assert parts[0] + "" == parts[0];
      assert parts == [parts[0]];
    } else {
      var rest := [c] + Join(parts[1..], [c]);
      var s := Join(parts, [c]);
      assert s == parts[0] + rest;
      IndexOfAppend(parts[0], c, rest);
      IndexOfHead(c, Join(parts[1..], [c]));
      assert s[..|parts[0]|] == parts[0];
      assert s[|parts[0]| + 1..] == Join(parts[1..], [c]);
      SplitJoin(parts[1..], c);
    }
  }

  predicate IsDigit(c: char) {
    '0' <= c <= '9'
  }

  lemma TenDigits(c: char)
    ensures IsDigit(c) <==> c in "0123456789"
  {
    assert forall i | 0 <= i < 10 :: "0123456789"[i] as int == '0' as int + i;
    if IsDigit(c) {
      assert "0123456789"[c as int - '0' as int] == c;
    }
  }

  predicate AllDigits(s: string) {
    forall i | 0 <= i < |s| :: IsDigit(s[i])
  }

  /** The number that a string of decimal digits denotes. */
  function Decimal(s: string): (n: nat)
    requires AllDigits(s)
  {
    if |s| == 0 then 0 else Decimal(s[..|s| - 1]) * 10 + (s[|s| - 1] as int - '0' as int)
  }

  /** The numbers of the recording windows. */
  lemma WindowNumbers()
    ensures AllDigits("5") && AllDigits("1") && AllDigits("6") && AllDigits("3") && AllDigits("7") && AllDigits("30")
    ensures Decimal("5") == 5 && Decimal("1") == 1 && Decimal("6") == 6
    ensures Decimal("3") == 3 && Decimal("7") == 7 && Decimal("30") == 30
  {
    assert "5"[..0] == "" && "1"[..0] == "" && "6"[..0] == "" && "3"[..0] == "" && "7"[..0] == "";
    assert "30"[..1] == "3";
  }
}
