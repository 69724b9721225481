/**
 The fragment of PromQL that the rule generator emits: tokens, abstract syntax, the text of
 a syntax tree, and a parser that follows the table "Binary operator precedence" of the
 Prometheus documentation ("Operators"): `* /` bind tighter than `+ -`, then the
 comparisons, then `and`, then `or`; operators of one level associate to the left.

 Text is a sequence of tokens. A number is one token, and a negative number is a minus sign
 followed by its absolute value, as `%g` prints it.
 */
module PromSyntax {

  datatype Operator = Mul | Div | Add | Sub | Gt | Lt | Le | And | Or

  datatype Token =
    | TNum(n: real)
    | TIdent(name: string)
    | TStr(text: string)
    | TDur(dur: string)
    | TOp(op: Operator)
    | TOn
    | TBy
    | LPar
    | RPar
    | LBrace
    | RBrace
    | LBrack
    | RBrack
    | Comma
    | Eq
    | EqRegex

  type Text = seq<Token>

  datatype Matcher = Matcher(name: string, regex: bool, value: string)

  /** `metric` or `metric{m1,m2}`; a selector without braces has no matchers. */
  datatype Selector = Selector(metric: string, braces: bool, matchers: seq<Matcher>)

  /** How a binary operator pairs the series of its two sides. */
  datatype Matching = AllLabels | OnLabels(labels: seq<string>)

  datatype Expr =
    | Lit(v: real)
    | Neg(e: Expr)
    | Select(sel: Selector)
    | Range(sel: Selector, dur: string)
    | Paren(e: Expr)
    | Call(f: string, arg: Expr)
    | Call2(f: string, arg: Expr, arg2: Expr)
    | MaxBy(e: Expr)
    | Bin(op: Operator, matching: Matching, l: Expr, r: Expr)

  // ----- the text of a syntax tree -----

  function MatcherText(m: Matcher): Text {
    [TIdent(m.name), if m.regex then EqRegex else Eq, TStr(m.value)]
  }

  function MatchersText(ms: seq<Matcher>): Text {
    if |ms| == 0 then [] else
    if |ms| == 1 then MatcherText(ms[0]) else MatcherText(ms[0]) + [Comma] + MatchersText(ms[1..])
  }

  function SelectorText(s: Selector): Text {
    [TIdent(s.metric)] + if s.braces then [LBrace] + MatchersText(s.matchers) + [RBrace] else []
  }

  function LabelsText(ls: seq<string>): Text {
    if |ls| == 0 then [] else
    if |ls| == 1 then [TIdent(ls[0])] else [TIdent(ls[0]), Comma] + LabelsText(ls[1..])
  }

  function MatchingText(m: Matching): Text {
    match m
    case AllLabels => []
    case OnLabels(ls) => [TOn, LPar] + LabelsText(ls) + [RPar]
  }

  function Print(e: Expr): Text {
    match e
    case Lit(v) => [TNum(v)]
    case Neg(a) => [TOp(Sub)] + Print(a)
    case Select(s) => SelectorText(s)
    case Range(s, d) => SelectorText(s) + [LBrack, TDur(d), RBrack]
    case Paren(a) => [LPar] + Print(a) + [RPar]
    case Call(f, a) => [TIdent(f), LPar] + Print(a) + [RPar]
    case Call2(f, a, b) => [TIdent(f), LPar] + Print(a) + [Comma] + Print(b) + [RPar]
    case MaxBy(a) => [TIdent("max"), TBy, LPar, RPar, LPar] + Print(a) + [RPar]
    case Bin(op, m, l, r) => Print(l) + [TOp(op)] + MatchingText(m) + Print(r)
  }

  // ----- precedence -----

  const TIGHTEST := 5

  /** Precedence level of an operator: a higher level binds tighter. */
  function Level(op: Operator): (level: nat)
    ensures level < TIGHTEST
  {
    match op
    case Or => 0
    case And => 1
    case Gt | Lt | Le => 2
    case Add | Sub => 3
    case Mul | Div => 4
  }

  predicate WellFormedSelector(s: Selector) {
    !s.braces ==> s.matchers == []
  }

  predicate WellFormedMatching(m: Matching) {
    m.OnLabels? ==> |m.labels| > 0
  }

  /** The tree can stand at precedence level `level` without parentheses around it. */
  predicate FitsAt(e: Expr, level: nat) {
    match e
    case Lit(_) => true
    case Neg(a) => FitsAt(a, TIGHTEST)
    case Select(s) => WellFormedSelector(s)
    case Range(s, _) => WellFormedSelector(s)
    case Paren(a) => FitsAt(a, 0)
    case Call(_, a) => FitsAt(a, 0)
    case Call2(_, a, b) => FitsAt(a, 0) && FitsAt(b, 0)
    case MaxBy(a) => FitsAt(a, 0)
    case Bin(op, m, l, r) =>
      level <= Level(op) && WellFormedMatching(m) && FitsAt(l, Level(op)) && FitsAt(r, Level(op) + 1)
  }

  // ----- the parser -----

  datatype Parsed<T> = Error | Done(value: T, rest: Text)

  function ParseMatchers(ts: Text): (p: Parsed<seq<Matcher>>)
    ensures p.Done? ==> |p.rest| < |ts|
  {
    if |ts| >= 4 && ts[0].TIdent? && (ts[1].Eq? || ts[1].EqRegex?) && ts[2].TStr? then
      var m := Matcher(ts[0].name, ts[1].EqRegex?, ts[2].text);
      if ts[3].RBrace? then Done([m], ts[4..])
      else if ts[3].Comma? then
        match ParseMatchers(ts[4..])
        case Error => Error
        case Done(ms, rest) => Done([m] + ms, rest)
      else Error
    else Error
  }

  function ParseSelector(ts: Text): (p: Parsed<Selector>)
    ensures p.Done? ==> |p.rest| < |ts|
  {
    if |ts| >= 1 && ts[0].TIdent? then
      if |ts| >= 2 && ts[1].LBrace? then
        if |ts| >= 3 && ts[2].RBrace? then Done(Selector(ts[0].name, true, []), ts[3..])
        else
          match ParseMatchers(ts[2..])
          case Error => Error
          case Done(ms, rest) => Done(Selector(ts[0].name, true, ms), rest)
      else Done(Selector(ts[0].name, false, []), ts[1..])
    else Error
  }

  function ParseLabels(ts: Text): (p: Parsed<seq<string>>)
    ensures p.Done? ==> |p.rest| < |ts|
  {
    if |ts| >= 2 && ts[0].TIdent? then
      if ts[1].RPar? then Done([ts[0].name], ts[2..])
      else if ts[1].Comma? then
        match ParseLabels(ts[2..])
        case Error => Error
        case Done(ls, rest) => Done([ts[0].name] + ls, rest)
      else Error
    else Error
  }

  function ParseMatching(ts: Text): (p: Parsed<Matching>)
    ensures p.Done? ==> |p.rest| <= |ts|
  {
    if |ts| >= 1 && ts[0].TOn? then
      if |ts| >= 2 && ts[1].LPar? then
        match ParseLabels(ts[2..])
        case Error => Error
        case Done(ls, rest) => Done(OnLabels(ls), rest)
      else Error
    else Done(AllLabels, ts)
  }

  /** Reads the closing parenthesis of `e`. */
  function Close(p: Parsed<Expr>): (q: Parsed<Expr>)
    ensures q.Done? ==> p.Done? && |q.rest| < |p.rest|
  {
    if p.Done? && |p.rest| >= 1 && p.rest[0].RPar? then Done(p.value, p.rest[1..]) else Error
  }

  /** Parses one expression whose operators all bind at least as tight as `level`. */
  function ParseAt(level: nat, ts: Text): (p: Parsed<Expr>)
    requires level <= TIGHTEST
    ensures p.Done? ==> |p.rest| < |ts|
    decreases |ts|, TIGHTEST - level
  {
    if level == TIGHTEST then ParsePrimary(ts)
    else
      match ParseAt(level + 1, ts)
      case Error => Error
      case Done(l, rest) => ParseTail(level, l, rest)
  }

  /** Extends `l` to the left-associative chain of operators of level `level` that follows. */
  function ParseTail(level: nat, l: Expr, ts: Text): (p: Parsed<Expr>)
    requires level < TIGHTEST
    ensures p.Done? ==> |p.rest| <= |ts|
    decreases |ts|, 0
  {
    if |ts| >= 1 && ts[0].TOp? && Level(ts[0].op) == level then
      match ParseMatching(ts[1..])
      case Error => Error
      case Done(m, rest) =>
        match ParseAt(level + 1, rest)
        case Error => Error
        case Done(r, rest') => ParseTail(level, Bin(ts[0].op, m, l, r), rest')
    else Done(l, ts)
  }

  /** The text starts with `max by () (`. */
  predicate StartsMaxBy(ts: Text) {
    |ts| >= 5 && ts[0] == TIdent("max") && ts[1].TBy? && ts[2].LPar? && ts[3].RPar? && ts[4].LPar?
  }

  function ParsePrimary(ts: Text): (p: Parsed<Expr>)
    ensures p.Done? ==> |p.rest| < |ts|
    decreases |ts|, 0, 0
  {
    if |ts| == 0 then Error
    else if ts[0].TNum? then Done(Lit(ts[0].n), ts[1..])
    else if ts[0] == TOp(Sub) then
      match ParsePrimary(ts[1..])
      case Error => Error
      case Done(a, rest) => Done(Neg(a), rest)
    else if ts[0].LPar? then
      match Close(ParseAt(0, ts[1..]))
      case Error => Error
      case Done(a, rest) => Done(Paren(a), rest)
    else if !ts[0].TIdent? then Error
    else if |ts| >= 2 && ts[1].LPar? then
      match ParseAt(0, ts[2..])
      case Error => Error
      case Done(a, rest) =>
        if |rest| >= 1 && rest[0].Comma? then
          match Close(ParseAt(0, rest[1..]))
          case Error => Error
          case Done(b, rest') => Done(Call2(ts[0].name, a, b), rest')
        else
          match Close(Done(a, rest))
          case Error => Error
          case Done(_, rest') => Done(Call(ts[0].name, a), rest')
    else if StartsMaxBy(ts) then
      match Close(ParseAt(0, ts[5..]))
      case Error => Error
      case Done(a, rest) => Done(MaxBy(a), rest)
    else
      match ParseSelector(ts)
      case Error => Error
      case Done(s, rest) =>
        if |rest| >= 3 && rest[0].LBrack? && rest[1].TDur? && rest[2].RBrack? then
          Done(Range(s, rest[1].dur), rest[3..])
        else Done(Select(s), rest)
  }

  /** A whole text is an expression when nothing is left over. */
  function Parse(ts: Text): (p: Parsed<Expr>)
    ensures p.Done? ==> p.rest == []
  {
    match ParseAt(0, ts)
    case Error => Error
    case Done(e, rest) => if rest == [] then Done(e, rest) else Error
  }

  // ----- parsing undoes printing -----

  /** What follows an expression parsed at `level` cannot be taken for a part of it. */
  predicate Stops(level: nat, rest: Text) {
    rest == [] || rest[0].RPar? || rest[0].Comma? || (rest[0].TOp? && Level(rest[0].op) < level)
  }

  lemma {:induction false} MatchersRoundTrip(ms: seq<Matcher>, rest: Text)
    requires |ms| > 0
    ensures ParseMatchers(MatchersText(ms) + [RBrace] + rest) == Done(ms, rest)
  {
    var ts := MatchersText(ms) + [RBrace] + rest;
    if |ms| == 1 {
      assert ts[4..] == rest;
      assert ms == [ms[0]];
    } else {
      assert ts == MatcherText(ms[0]) + [Comma] + (MatchersText(ms[1..]) + [RBrace] + rest);
      assert ts[4..] == MatchersText(ms[1..]) + [RBrace] + rest;
      MatchersRoundTrip(ms[1..], rest);
      assert ms == [ms[0]] + ms[1..];
    }
  }

  lemma {:induction false} LabelsRoundTrip(ls: seq<string>, rest: Text)
    requires |ls| > 0
    ensures ParseLabels(LabelsText(ls) + [RPar] + rest) == Done(ls, rest)
  {
    var ts := LabelsText(ls) + [RPar] + rest;
    if |ls| == 1 {
      assert ts[2..] == rest;
      assert ls == [ls[0]];
    } else {
      assert ts == [TIdent(ls[0]), Comma] + (LabelsText(ls[1..]) + [RPar] + rest);
      assert ts[2..] == LabelsText(ls[1..]) + [RPar] + rest;
      LabelsRoundTrip(ls[1..], rest);
      assert ls == [ls[0]] + ls[1..];
    }
  }

  lemma SelectorRoundTrip(s: Selector, rest: Text)
    requires WellFormedSelector(s)
    requires rest == [] || !rest[0].LBrace?
    ensures ParseSelector(SelectorText(s) + rest) == Done(s, rest)
  {
    var ts := SelectorText(s) + rest;
    if !s.braces {
      assert ts[1..] == rest;
    } else if s.matchers == [] {
      assert ts[3..] == rest;
    } else {
      assert ts == [TIdent(s.metric), LBrace] + (MatchersText(s.matchers) + [RBrace] + rest);
      assert ts[2..] == MatchersText(s.matchers) + [RBrace] + rest;
      MatchersRoundTrip(s.matchers, rest);
    }
  }

  /** An expression never starts with `on`, so an absent matching clause is read as absent. */
  lemma {:induction false} FirstToken(e: Expr)
    ensures |Print(e)| > 0 && !Print(e)[0].TOn? && !Print(e)[0].RPar?
  {
    match e
    case Bin(_, _, l, _) => FirstToken(l);
    case _ =>
  }

  lemma MatchingOfText(m: Matching, after: Text)
    requires WellFormedMatching(m) && |after| > 0 && !after[0].TOn?
    ensures ParseMatching(MatchingText(m) + after) == Done(m, after)
  {
    match m
    case AllLabels =>
      assert MatchingText(m) + after == after;
    case OnLabels(ls) =>
      var ts := MatchingText(m) + after;
      assert ts == [TOn, LPar] + (LabelsText(ls) + [RPar] + after);
      assert ts[2..] == LabelsText(ls) + [RPar] + after;
      LabelsRoundTrip(ls, after);
  }

  lemma MatchingRoundTrip(m: Matching, e: Expr, rest: Text)
    requires WellFormedMatching(m)
    ensures ParseMatching(MatchingText(m) + (Print(e) + rest)) == Done(m, Print(e) + rest)
  {
    hide ParseMatching, MatchingText;
    FirstToken(e);
    MatchingOfText(m, Print(e) + rest);
  }

  /** One step of a chain: the parser reads an operator and its right operand. */
  lemma ChainStep(level: nat, l: Expr, op: Operator, m: Matching, r: Expr, rest: Text)
    requires level < TIGHTEST && Level(op) == level && WellFormedMatching(m)
    requires ParseAt(level + 1, Print(r) + rest) == Done(r, rest)
    ensures ParseTail(level, l, [TOp(op)] + (MatchingText(m) + (Print(r) + rest)))
         == ParseTail(level, Bin(op, m, l, r), rest)
  {
    var afterOp := MatchingText(m) + (Print(r) + rest);
    assert ([TOp(op)] + afterOp)[1..] == afterOp;
    MatchingRoundTrip(m, r, rest);
  }

  lemma CallText(f: string, a: Expr, rest: Text)
    requires Close(ParseAt(0, Print(a) + ([RPar] + rest))) == Done(a, rest)
    requires ParseAt(0, Print(a) + ([RPar] + rest)) == Done(a, [RPar] + rest)
    ensures ParsePrimary(Print(Call(f, a)) + rest) == Done(Call(f, a), rest)
  {
    assert (Print(Call(f, a)) + rest)[2..] == Print(a) + ([RPar] + rest);
  }

  lemma Call2Text(f: string, a: Expr, b: Expr, rest: Text)
    requires Close(ParseAt(0, Print(b) + ([RPar] + rest))) == Done(b, rest)
    requires var tail := [Comma] + (Print(b) + ([RPar] + rest));
             ParseAt(0, Print(a) + tail) == Done(a, tail)
    ensures ParsePrimary(Print(Call2(f, a, b)) + rest) == Done(Call2(f, a, b), rest)
  {
    var tail := [Comma] + (Print(b) + ([RPar] + rest));
    var ts := Print(Call2(f, a, b)) + rest;
    Call2Append(f, a, b, rest);
    hide ParseAt, ParseSelector, Print, Close;
    assert ts[2..] == Print(a) + tail;
    assert tail[1..] == Print(b) + ([RPar] + rest);
  }

  lemma MaxByText(a: Expr, rest: Text)
    requires Close(ParseAt(0, Print(a) + ([RPar] + rest))) == Done(a, rest)
    ensures ParsePrimary(Print(MaxBy(a)) + rest) == Done(MaxBy(a), rest)
  {
    hide Print, ParseSelector, ParseAt, Close;
    MaxByAppend(a, rest);
    var ts := Print(MaxBy(a)) + rest;
    assert ts[5..] == Print(a) + ([RPar] + rest);
  }

  lemma RangeAppend(s: Selector, d: string, rest: Text)
    ensures SelectorText(s) + ([LBrack, TDur(d), RBrack] + rest) == Print(Range(s, d)) + rest
  {
  }

  lemma RangeText(s: Selector, d: string, rest: Text)
    requires WellFormedSelector(s)
    ensures ParsePrimary(Print(Range(s, d)) + rest) == Done(Range(s, d), rest)
  {
    hide Print, ParseSelector, ParseAt, MatchersText;
    var after := [LBrack, TDur(d), RBrack] + rest;
    RangeAppend(s, d, rest);
    SelectorRoundTrip(s, after);
    assert after[3..] == rest;
  }

  lemma NegText(a: Expr, rest: Text)
    requires ParsePrimary(Print(a) + rest) == Done(a, rest)
    ensures ParsePrimary(Print(Neg(a)) + rest) == Done(Neg(a), rest)
  {
    hide Print, ParseSelector, ParseAt, Close;
    NegAppend(a, rest);
    var ts := Print(Neg(a)) + rest;
    assert ts[1..] == Print(a) + rest;
  }

  lemma ParenText(a: Expr, rest: Text)
    requires Close(ParseAt(0, Print(a) + ([RPar] + rest))) == Done(a, rest)
    ensures ParsePrimary(Print(Paren(a)) + rest) == Done(Paren(a), rest)
  {
    hide Print, ParseSelector, ParseAt, Close;
    ParenAppend(a, rest);
    var ts := Print(Paren(a)) + rest;
    assert ts[1..] == Print(a) + ([RPar] + rest);
  }

  lemma SelectText(s: Selector, rest: Text)
    requires WellFormedSelector(s) && Stops(TIGHTEST, rest)
    ensures ParsePrimary(Print(Select(s)) + rest) == Done(Select(s), rest)
  {
    SelectorRoundTrip(s, rest);
  }

  /** Parsing the text of a primary expression gives the expression back. */
  lemma {:induction false} PrimaryRoundTrip(e: Expr, rest: Text)
    requires !e.Bin? && FitsAt(e, TIGHTEST) && Stops(TIGHTEST, rest)
    ensures ParsePrimary(Print(e) + rest) == Done(e, rest)
    decreases e, 0
  {
    match e
    case Lit(_) => assert (Print(e) + rest)[1..] == rest;
    case Neg(a) =>
      PrimaryRoundTrip(a, rest);
      NegText(a, rest);
    case Select(s) => SelectText(s, rest);
    case Range(s, d) => RangeText(s, d, rest);
    case Paren(a) =>
      ClosedRoundTrip(a, rest);
      ParenText(a, rest);
    case Call(f, a) =>
      ClosedRoundTrip(a, rest);
      CallText(f, a, rest);
    case Call2(f, a, b) =>
      RoundTripAt(a, 0, [Comma] + (Print(b) + ([RPar] + rest)));
      ClosedRoundTrip(b, rest);
      Call2Text(f, a, b, rest);
    case MaxBy(a) =>
      ClosedRoundTrip(a, rest);
      MaxByText(a, rest);
  }

  lemma {:induction false} ClosedRoundTrip(e: Expr, rest: Text)
    requires FitsAt(e, 0)
    ensures ParseAt(0, Print(e) + ([RPar] + rest)) == Done(e, [RPar] + rest)
    ensures Close(ParseAt(0, Print(e) + ([RPar] + rest))) == Done(e, rest)
    decreases e, 12
  {
    RoundTripAt(e, 0, [RPar] + rest);
    assert ([RPar] + rest)[1..] == rest;
  }

  /** The left spine: after the text of `e`, the parser is in the middle of the chain that starts with `e`. */
  lemma {:induction false} SpineRoundTrip(e: Expr, level: nat, rest: Text)
    requires level < TIGHTEST && FitsAt(e, level) && Stops(level + 1, rest)
    ensures ParseAt(level, Print(e) + rest) == ParseTail(level, e, rest)
    decreases e, 2 * (TIGHTEST - level)
  {
    hide Print, MatchingText, ParseMatching, LabelsText;
    if e.Bin? && Level(e.op) == level {
      var after := [TOp(e.op)] + (MatchingText(e.matching) + (Print(e.r) + rest));
      BinAppend(e.op, e.matching, e.l, e.r, rest);
      SpineRoundTrip(e.l, level, after);
      RoundTripAt(e.r, level + 1, rest);
      ChainStep(level, e.l, e.op, e.matching, e.r, rest);
    } else {
      RoundTripAt(e, level + 1, rest);
    }
  }

  lemma {:induction false} RoundTripAt(e: Expr, level: nat, rest: Text)
    requires level <= TIGHTEST && FitsAt(e, level) && Stops(level, rest)
    ensures ParseAt(level, Print(e) + rest) == Done(e, rest)
    decreases e, 2 * (TIGHTEST - level) + 1
  {
    if level == TIGHTEST {
      PrimaryRoundTrip(e, rest);
    } else {
      SpineRoundTrip(e, level, rest);
    }
  }

  /** Every tree that respects precedence is recovered from its text: the text has one meaning. */
  lemma RoundTrip(e: Expr)
    requires FitsAt(e, 0)
    ensures Parse(Print(e)) == Done(e, [])
  {
    assert Print(e) + [] == Print(e);
    RoundTripAt(e, 0, []);
  }

  // ----- printing undoes parsing -----

  lemma {:induction false} MatchersSound(ts: Text)
    ensures var p := ParseMatchers(ts);
            p.Done? ==> |p.value| > 0 && MatchersText(p.value) + [RBrace] + p.rest == ts
  {
    var p := ParseMatchers(ts);
    if p.Done? && ts[3].Comma? {
      MatchersSound(ts[4..]);
      var q := ParseMatchers(ts[4..]);
      assert p.value[1..] == q.value;
      assert ts == ts[..4] + ts[4..];
    } else if p.Done? {
      assert ts == ts[..4] + ts[4..];
    }
  }

  lemma {:induction false} LabelsSound(ts: Text)
    ensures var p := ParseLabels(ts);
            p.Done? ==> |p.value| > 0 && LabelsText(p.value) + [RPar] + p.rest == ts
  {
    var p := ParseLabels(ts);
    if p.Done? && ts[1].Comma? {
      LabelsSound(ts[2..]);
      var q := ParseLabels(ts[2..]);
      assert p.value[1..] == q.value;
      assert ts == ts[..2] + ts[2..];
    } else if p.Done? {
      assert ts == ts[..2] + ts[2..];
    }
  }

  lemma SelectorSound(ts: Text)
    ensures var p := ParseSelector(ts);
            p.Done? ==> WellFormedSelector(p.value) && SelectorText(p.value) + p.rest == ts
  {
    if |ts| >= 3 && ts[0].TIdent? && ts[1].LBrace? && !ts[2].RBrace? {
      MatchersSound(ts[2..]);
      assert ts == ts[..2] + ts[2..];
    }
  }

  lemma MatchingSound(ts: Text)
    ensures var p := ParseMatching(ts);
            p.Done? ==> WellFormedMatching(p.value) && MatchingText(p.value) + p.rest == ts
  {
    if |ts| >= 2 && ts[0].TOn? && ts[1].LPar? {
      LabelsSound(ts[2..]);
      assert ts == ts[..2] + ts[2..];
    }
  }

  ghost predicate Sound(level: nat, p: Parsed<Expr>, ts: Text) {
    p.Done? ==> FitsAt(p.value, level) && Print(p.value) + p.rest == ts
  }

  lemma CloseSound(a: Parsed<Expr>, ts: Text)
    requires Sound(0, a, ts)
    ensures var p := Close(a); p.Done? ==> FitsAt(p.value, 0) && ts == Print(p.value) + ([RPar] + p.rest)
  {
    var p := Close(a);
    if p.Done? {
      assert a.rest == [RPar] + p.rest;
    }
  }

  lemma CallAppend(f: string, a: Expr, rest: Text)
    ensures [TIdent(f), LPar] + (Print(a) + ([RPar] + rest)) == Print(Call(f, a)) + rest
  {
  }

  lemma Call2Append(f: string, a: Expr, b: Expr, rest: Text)
    ensures [TIdent(f), LPar] + (Print(a) + ([Comma] + (Print(b) + ([RPar] + rest)))) == Print(Call2(f, a, b)) + rest
  {
  }

  lemma BinAppend(op: Operator, m: Matching, l: Expr, r: Expr, rest: Text)
    ensures Print(l) + ([TOp(op)] + (MatchingText(m) + (Print(r) + rest))) == Print(Bin(op, m, l, r)) + rest
  {
  }

  lemma {:induction false} CallSound(ts: Text)
    requires |ts| >= 2 && ts[0].TIdent? && ts[1].LPar?
    ensures Sound(TIGHTEST, ParsePrimary(ts), ts)
    decreases |ts|, 0, 0
  {
    var f, inner := ts[0].name, ts[2..];
    assert ts == [TIdent(f), LPar] + inner;
    ParseAtSound(0, inner);
    var a := ParseAt(0, inner);
    if a.Done? && |a.rest| >= 1 && a.rest[0].Comma? {
      var after := a.rest[1..];
      assert a.rest == [Comma] + after;
      ParseAtSound(0, after);
      var b := ParseAt(0, after);
      CloseSound(b, after);
      if Close(b).Done? {
        Call2Append(f, a.value, b.value, Close(b).rest);
      }
    } else {
      CloseSound(a, inner);
      if Close(a).Done? {
        CallAppend(f, a.value, Close(a).rest);
      }
    }
  }

  lemma NegAppend(a: Expr, rest: Text)
    ensures [TOp(Sub)] + (Print(a) + rest) == Print(Neg(a)) + rest
  {
  }

  lemma ParenAppend(a: Expr, rest: Text)
    ensures [LPar] + (Print(a) + ([RPar] + rest)) == Print(Paren(a)) + rest
  {
  }

  lemma MaxByAppend(a: Expr, rest: Text)
    ensures [TIdent("max"), TBy, LPar, RPar, LPar] + (Print(a) + ([RPar] + rest)) == Print(MaxBy(a)) + rest
  {
  }

  lemma NegSound(ts: Text)
    requires |ts| > 0 && ts[0] == TOp(Sub) && Sound(TIGHTEST, ParsePrimary(ts[1..]), ts[1..])
    ensures Sound(TIGHTEST, ParsePrimary(ts), ts)
  {
    hide ParseAt, ParseSelector, Print;
    var p := ParsePrimary(ts[1..]);
    if p.Done? {
      NegAppend(p.value, p.rest);
      assert ts == [ts[0]] + ts[1..];
    }
  }

  lemma ParenSound(ts: Text)
    requires |ts| > 0 && ts[0].LPar? && Sound(0, ParseAt(0, ts[1..]), ts[1..])
    ensures Sound(TIGHTEST, ParsePrimary(ts), ts)
  {
    CloseSound(ParseAt(0, ts[1..]), ts[1..]);
    var p := Close(ParseAt(0, ts[1..]));
    hide ParseAt, ParseSelector, Print, Close;
    if p.Done? {
      ParenAppend(p.value, p.rest);
      assert ts == [ts[0]] + ts[1..];
    }
  }

  lemma MaxBySound(ts: Text)
    requires StartsMaxBy(ts) && Sound(0, ParseAt(0, ts[5..]), ts[5..])
    ensures Sound(TIGHTEST, ParsePrimary(ts), ts)
  {
    CloseSound(ParseAt(0, ts[5..]), ts[5..]);
    var p := Close(ParseAt(0, ts[5..]));
    hide ParseAt, ParseSelector, Print, Close;
    if p.Done? {
      MaxByAppend(p.value, p.rest);
      assert ts == [TIdent("max"), TBy, LPar, RPar, LPar] + ts[5..];
    }
  }

  lemma SelectSound(ts: Text)
    requires |ts| > 0 && !(ts[0] == TOp(Sub)) && !ts[0].LPar? && !(|ts| >= 2 && ts[0].TIdent? && ts[1].LPar?)
    requires !StartsMaxBy(ts)
    ensures Sound(TIGHTEST, ParsePrimary(ts), ts)
  {
    hide ParseAt, ParseSelector, SelectorText, Close;
    SelectorSound(ts);
    var s := ParseSelector(ts);
    if s.Done? && |s.rest| >= 3 && s.rest[0].LBrack? && s.rest[1].TDur? && s.rest[2].RBrack? {
      RangeAppend(s.value, s.rest[1].dur, s.rest[3..]);
      assert s.rest == [LBrack, TDur(s.rest[1].dur), RBrack] + s.rest[3..];
    }
  }

  lemma {:induction false} PrimarySound(ts: Text)
    ensures Sound(TIGHTEST, ParsePrimary(ts), ts)
    decreases |ts|, 0, 1
  {
    hide ParseAt, ParseSelector;
    if |ts| == 0 {
    } else if ts[0] == TOp(Sub) {
      PrimarySound(ts[1..]);
      NegSound(ts);
    } else if ts[0].LPar? {
      ParseAtSound(0, ts[1..]);
      ParenSound(ts);
    } else if |ts| >= 2 && ts[0].TIdent? && ts[1].LPar? {
      CallSound(ts);
    } else if StartsMaxBy(ts) {
      ParseAtSound(0, ts[5..]);
      MaxBySound(ts);
    } else {
      SelectSound(ts);
    }
  }

  lemma {:induction false} ParseAtSound(level: nat, ts: Text)
    requires level <= TIGHTEST
    ensures Sound(level, ParseAt(level, ts), ts)
    decreases |ts|, TIGHTEST - level, 2
  {
    if level == TIGHTEST {
      PrimarySound(ts);
    } else {
      ParseAtSound(level + 1, ts);
      var p := ParseAt(level + 1, ts);
      if p.Done? {
        ParseTailSound(level, p.value, p.rest);
      }
    }
  }

  lemma {:induction false} ParseTailSound(level: nat, l: Expr, ts: Text)
    requires level < TIGHTEST && FitsAt(l, level)
    ensures Sound(level, ParseTail(level, l, ts), Print(l) + ts)
    decreases |ts|, 0, 2
  {
    hide MatchingText, LabelsText, ParseMatching, WellFormedMatching;
    if |ts| >= 1 && ts[0].TOp? && Level(ts[0].op) == level {
      MatchingSound(ts[1..]);
      var m := ParseMatching(ts[1..]);
      if m.Done? {
        ParseAtSound(level + 1, m.rest);
        var r := ParseAt(level + 1, m.rest);
        if r.Done? {
          ParseTailSound(level, Bin(ts[0].op, m.value, l, r.value), r.rest);
          assert ts == [ts[0]] + ts[1..];
          BinAppend(ts[0].op, m.value, l, r.value, r.rest);
        }
      }
    }
  }

  /** A text parses exactly when it is the text of a tree that respects precedence, and of no other. */
  lemma ParseExactly(ts: Text, e: Expr)
    ensures Parse(ts) == Done(e, []) <==> FitsAt(e, 0) && Print(e) == ts
  {
    ParseAtSound(0, ts);
    if FitsAt(e, 0) && Print(e) == ts {
      RoundTrip(e);
    }
    if Parse(ts) == Done(e, []) {
      assert Print(e) + [] == Print(e);
    }
  }
}
