/** What a pattern text denotes, said without the parser: every tree is printed as a text, and the text
    accepts the words of the tree. */
module PatternText {
  import opened Basics
  import opened Regex

  // ---------------------------------------------------------------- printing

  predicate IsRepeat(re: Re) { re.Star? || re.Plus? || re.Opt? }

  function BodyOf(re: Re): Re
    requires IsRepeat(re)
  {
    match re
    case Star(a) => a
    case Plus(a) => a
    case Opt(a) => a
  }

  /** The operator of a repetition, greedy or lazy. A question mark right after another operator would make
      that one lazy, so there it comes after one that does. */
  function Operator(re: Re, lazy: bool): string
    requires IsRepeat(re)
  {
    var mark := if lazy then "?" else "";
    match re
    case Star(_) => "*" + mark
    case Plus(_) => "+" + mark
    case Opt(a) => if IsRepeat(a) && !lazy then "??" else "?" + mark
  }

  function PrintAlternatives(re: Re, lazy: bool): string
    decreases re, 3
  {
    match re
    case Either(a, b) => PrintSequence(a, lazy) + "|" + PrintAlternatives(b, lazy)
    case _ => PrintSequence(re, lazy)
  }

  function PrintSequence(re: Re, lazy: bool): string
    decreases re, 2
  {
    match re
    case Empty => ""
    case Concat(a, b) => PrintRepeated(a, lazy) + PrintSequence(b, lazy)
    case _ => PrintRepeated(re, lazy)
  }

  function PrintRepeated(re: Re, lazy: bool): string
    decreases re, 1
  {
    if IsRepeat(re) then PrintRepeated(BodyOf(re), lazy) + Operator(re, lazy) else PrintAtom(re, lazy)
  }

  /** What is no atom by itself is put in brackets that do not capture. */
  function PrintAtom(re: Re, lazy: bool): string
    requires !IsRepeat(re)
    decreases re, 0
  {
    match re
    case Literal(c) => if IsMeta(c) then ['\\', c] else [c]
    case AnyChar => "."
    case Bol => "^"
    case Eol => "$"
    case Group(a) => "(" + PrintAlternatives(a, lazy) + ")"
    case Empty => "(?:)"
    case Concat(a, b) => "(?:" + (PrintRepeated(a, lazy) + PrintSequence(b, lazy)) + ")"
    case Either(a, b) => "(?:" + (PrintSequence(a, lazy) + "|" + PrintAlternatives(b, lazy)) + ")"
    case _ => ""
  }

  // ---------------------------------------------------------------- the tree of the printed text

  function ShapeAlternatives(re: Re): Re
    decreases re, 3
  {
    match re
    case Either(a, b) => Either(ShapeSequence(a), ShapeAlternatives(b))
    case _ => ShapeSequence(re)
  }

  function ShapeSequence(re: Re): Re
    decreases re, 2
  {
    match re
    case Empty => Empty
    case Concat(a, b) => Concat(ShapeRepeated(a), ShapeSequence(b))
    case _ => Concat(ShapeRepeated(re), Empty)
  }

  function ShapeRepeated(re: Re): Re
    decreases re, 1
  {
    match re
    case Star(a) => Star(ShapeRepeated(a))
    case Plus(a) => Plus(ShapeRepeated(a))
    case Opt(a) => Opt(ShapeRepeated(a))
    case _ => ShapeAtom(re)
  }

  function ShapeAtom(re: Re): Re
    requires !IsRepeat(re)
    decreases re, 0
  {
    match re
    case Group(a) => Group(ShapeAlternatives(a))
    case Empty => Group(Empty)
    case Concat(a, b) => Group(Concat(ShapeRepeated(a), ShapeSequence(b)))
    case Either(a, b) => Group(Either(ShapeSequence(a), ShapeAlternatives(b)))
    case _ => re
  }

  /** Printing adds brackets and the end of a sequence, and neither changes what is matched. */
  lemma {:induction false} ShapeMatches(re: Re, s: string, i: nat, j: nat)
    requires i <= j <= |s|
    ensures MatchesAt(ShapeRepeated(re), s, i, j) <==> MatchesAt(re, s, i, j)
    ensures MatchesAt(ShapeSequence(re), s, i, j) <==> MatchesAt(re, s, i, j)
    ensures MatchesAt(ShapeAlternatives(re), s, i, j) <==> MatchesAt(re, s, i, j)
    decreases re, j - i, 1
  {
    match re
    case Concat(a, b) => ConcatMatches(a, b, s, i, j);
    case Either(a, b) => EitherMatches(a, b, s, i, j);
    case Star(a) => StarMatches(a, s, i, j);
    case Plus(a) => PlusMatches(a, s, i, j);
    case Opt(a) =>
      ShapeMatches(a, s, i, j);
      EndsEmpty(ShapeRepeated(re), s, i, j);
    case Group(a) =>
      ShapeMatches(a, s, i, j);
      EndsEmpty(ShapeRepeated(re), s, i, j);
    case _ => EndsEmpty(ShapeRepeated(re), s, i, j);
  }

  lemma {:induction false} ConcatMatches(a: Re, b: Re, s: string, i: nat, j: nat)
    requires i <= j <= |s|
    ensures var re := Concat(a, b);
            && (MatchesAt(ShapeRepeated(re), s, i, j) <==> MatchesAt(re, s, i, j))
            && (MatchesAt(ShapeSequence(re), s, i, j) <==> MatchesAt(re, s, i, j))
            && (MatchesAt(ShapeAlternatives(re), s, i, j) <==> MatchesAt(re, s, i, j))
    decreases Concat(a, b), j - i, 0
  {
    forall k | i <= k <= j
      ensures MatchesAt(ShapeRepeated(a), s, i, k) <==> MatchesAt(a, s, i, k)
      ensures MatchesAt(ShapeSequence(b), s, k, j) <==> MatchesAt(b, s, k, j)
    {
      ShapeMatches(a, s, i, k);
      ShapeMatches(b, s, k, j);
    }
    SameSplit(a, b, ShapeRepeated(a), ShapeSequence(b), s, i, j);
  }

  lemma {:induction false} EitherMatches(a: Re, b: Re, s: string, i: nat, j: nat)
    requires i <= j <= |s|
    ensures var re := Either(a, b);
            && (MatchesAt(ShapeRepeated(re), s, i, j) <==> MatchesAt(re, s, i, j))
            && (MatchesAt(ShapeSequence(re), s, i, j) <==> MatchesAt(re, s, i, j))
            && (MatchesAt(ShapeAlternatives(re), s, i, j) <==> MatchesAt(re, s, i, j))
    decreases Either(a, b), j - i, 0
  {
    hide MatchesAt;
    var re := Either(ShapeSequence(a), ShapeAlternatives(b));
    assert ShapeAlternatives(Either(a, b)) == re && ShapeRepeated(Either(a, b)) == Group(re);
    assert ShapeSequence(Either(a, b)) == Concat(Group(re), Empty);
    hide ShapeAlternatives, ShapeSequence, ShapeRepeated;
    ShapeMatches(a, s, i, j);
    ShapeMatches(b, s, i, j);
    SameEither(a, b, ShapeSequence(a), ShapeAlternatives(b), s, i, j);
    EndsEmpty(Group(re), s, i, j);
  }

  lemma SameEither(a: Re, b: Re, a': Re, b': Re, s: string, i: nat, j: nat)
    requires i <= j <= |s|
    requires MatchesAt(a', s, i, j) <==> MatchesAt(a, s, i, j)
    requires MatchesAt(b', s, i, j) <==> MatchesAt(b, s, i, j)
    ensures MatchesAt(Either(a', b'), s, i, j) <==> MatchesAt(Either(a, b), s, i, j)
    ensures MatchesAt(Group(Either(a', b')), s, i, j) <==> MatchesAt(Either(a, b), s, i, j)
  {
  }

  lemma {:induction false} StarMatches(a: Re, s: string, i: nat, j: nat)
    requires i <= j <= |s|
    ensures var re := Star(a);
            && (MatchesAt(ShapeRepeated(re), s, i, j) <==> MatchesAt(re, s, i, j))
            && (MatchesAt(ShapeSequence(re), s, i, j) <==> MatchesAt(re, s, i, j))
            && (MatchesAt(ShapeAlternatives(re), s, i, j) <==> MatchesAt(re, s, i, j))
    decreases Star(a), j - i, 0
  {
    var re := Star(a);
    forall k | i < k <= j
      ensures MatchesAt(ShapeRepeated(a), s, i, k) <==> MatchesAt(a, s, i, k)
      ensures MatchesAt(Star(ShapeRepeated(a)), s, k, j) <==> MatchesAt(re, s, k, j)
    {
      ShapeMatches(a, s, i, k);
      ShapeMatches(re, s, k, j);
    }
    SameStar(a, ShapeRepeated(a), s, i, j);
    EndsEmpty(ShapeRepeated(re), s, i, j);
  }

  lemma {:induction false} PlusMatches(a: Re, s: string, i: nat, j: nat)
    requires i <= j <= |s|
    ensures var re := Plus(a);
            && (MatchesAt(ShapeRepeated(re), s, i, j) <==> MatchesAt(re, s, i, j))
            && (MatchesAt(ShapeSequence(re), s, i, j) <==> MatchesAt(re, s, i, j))
            && (MatchesAt(ShapeAlternatives(re), s, i, j) <==> MatchesAt(re, s, i, j))
    decreases Plus(a), j - i, 0
  {
    var re := Plus(a);
    ShapeMatches(a, s, i, j);
    forall k | i < k <= j
      ensures MatchesAt(ShapeRepeated(a), s, i, k) <==> MatchesAt(a, s, i, k)
      ensures MatchesAt(Plus(ShapeRepeated(a)), s, k, j) <==> MatchesAt(re, s, k, j)
    {
      ShapeMatches(a, s, i, k);
      ShapeMatches(re, s, k, j);
    }
    SamePlus(a, ShapeRepeated(a), s, i, j);
    EndsEmpty(ShapeRepeated(re), s, i, j);
  }

  lemma SameStar(a: Re, a': Re, s: string, i: nat, j: nat)
    requires i <= j <= |s|
    requires forall k | i < k <= j :: MatchesAt(a', s, i, k) <==> MatchesAt(a, s, i, k)
    requires forall k | i < k <= j :: MatchesAt(Star(a'), s, k, j) <==> MatchesAt(Star(a), s, k, j)
    ensures MatchesAt(Star(a'), s, i, j) <==> MatchesAt(Star(a), s, i, j)
  {
  }

  lemma SamePlus(a: Re, a': Re, s: string, i: nat, j: nat)
    requires i <= j <= |s|
    requires MatchesAt(a', s, i, j) <==> MatchesAt(a, s, i, j)
    requires forall k | i < k <= j :: MatchesAt(a', s, i, k) <==> MatchesAt(a, s, i, k)
    requires forall k | i < k <= j :: MatchesAt(Plus(a'), s, k, j) <==> MatchesAt(Plus(a), s, k, j)
    ensures MatchesAt(Plus(a'), s, i, j) <==> MatchesAt(Plus(a), s, i, j)
  {
  }

  lemma SameSplit(a: Re, b: Re, a': Re, b': Re, s: string, i: nat, j: nat)
    requires i <= j <= |s|
    requires forall k | i <= k <= j ::
               (MatchesAt(a', s, i, k) <==> MatchesAt(a, s, i, k)) && (MatchesAt(b', s, k, j) <==> MatchesAt(b, s, k, j))
    ensures MatchesAt(Concat(a', b'), s, i, j) <==> MatchesAt(Concat(a, b), s, i, j)
  {
    if MatchesAt(Concat(a', b'), s, i, j) { var k := SplitConcat(a', b', s, i, j); }
    if MatchesAt(Concat(a, b), s, i, j) { var k := SplitConcat(a, b, s, i, j); }
  }

  lemma EndsEmpty(re: Re, s: string, i: nat, j: nat)
    requires i <= j <= |s|
    ensures MatchesAt(Concat(re, Empty), s, i, j) <==> MatchesAt(re, s, i, j)
  {
    if MatchesAt(Concat(re, Empty), s, i, j) { var k := SplitConcat(re, Empty, s, i, j); }
    if MatchesAt(re, s, i, j) { assert MatchesAt(Empty, s, j, j); }
  }

  // ---------------------------------------------------------------- the parser reads it back

  /** A text that does not go on with a repetition. */
  predicate NoOperator(rest: string) { rest == [] || !IsRepetition(rest[0]) }

  /** A text that ends a sequence, and one that ends alternatives. */
  predicate EndsSequence(rest: string) { rest == [] || rest[0] in "|)" }

  predicate EndsAlternatives(rest: string) { rest == [] || rest[0] == ')' }

  /** No printed text starts with an operator or, if it is an atom, with the end of a sequence. */
  lemma {:induction false} PrintedStarts(re: Re, lazy: bool)
    ensures !IsRepeat(re) ==> PrintAtom(re, lazy) != [] && PrintAtom(re, lazy)[0] !in "|)*+?"
    ensures PrintRepeated(re, lazy) != [] && PrintRepeated(re, lazy)[0] !in "|)*+?"
    decreases re
  {
    if IsRepeat(re) { PrintedStarts(BodyOf(re), lazy); }
  }

  lemma {:induction false} SequenceStarts(re: Re, lazy: bool, rest: string)
    requires NoOperator(rest)
    ensures NoOperator(PrintSequence(re, lazy) + rest)
    ensures PrintSequence(re, lazy) != [] ==> PrintSequence(re, lazy)[0] !in "|)*+?"
  {
    match re
    case Empty => assert [] + rest == rest;
    case Concat(a, b) => PrintedStarts(a, lazy);
    case _ => PrintedStarts(re, lazy);
  }

  lemma AlternativesStart(re: Re, lazy: bool)
    ensures PrintAlternatives(re, lazy) == [] || PrintAlternatives(re, lazy)[0] !in ")*+?"
  {
    match re
    case Either(a, b) => SequenceStarts(a, lazy, "");
    case _ => SequenceStarts(re, lazy, "");
  }

  /** The atom under all repetitions, and the operators after it. */
  function Core(re: Re): (core: Re)
    ensures !IsRepeat(core)
  {
    if IsRepeat(re) then Core(BodyOf(re)) else re
  }

  function Operators(re: Re, lazy: bool): string {
    if IsRepeat(re) then Operators(BodyOf(re), lazy) + Operator(re, lazy) else ""
  }

  lemma {:induction false} RepeatedIsCore(re: Re, lazy: bool)
    ensures PrintRepeated(re, lazy) == PrintAtom(Core(re), lazy) + Operators(re, lazy)
  {
    if IsRepeat(re) { RepeatedIsCore(BodyOf(re), lazy); }
  }

  /** One operator is read, with the mark that follows it. */
  lemma OneOperator(x: Re, op: char, mark: string, tail: string)
    requires IsRepetition(op) && (mark == "?" || (mark == "" && (tail == [] || tail[0] != '?')))
    ensures ParseRepetitions(x, [op] + mark + tail) == ParseRepetitions(Repeat(x, op), tail)
  {
    var s := [op] + mark + tail;
    if mark == "?" { assert s[2..] == tail; } else { assert s[1..] == tail; }
  }

  function Symbol(re: Re): char
    requires IsRepeat(re)
  {
    if re.Star? then '*' else if re.Plus? then '+' else '?'
  }

  lemma SymbolRepeats(re: Re)
    requires IsRepeat(re)
    ensures IsRepetition(Symbol(re)) && Repeat(ShapeRepeated(BodyOf(re)), Symbol(re)) == ShapeRepeated(re)
  {
  }

  /** The operators of a tree are read one by one; after greedy ones a further question mark is a mark. */
  lemma {:induction false} OperatorsAreRead(re: Re, lazy: bool, tail: string)
    ensures lazy || tail == [] || tail[0] != '?' ==>
              ParseRepetitions(ShapeAtom(Core(re)), Operators(re, lazy) + tail)
              == ParseRepetitions(ShapeRepeated(re), tail)
    ensures !lazy && IsRepeat(re) ==>
              ParseRepetitions(ShapeAtom(Core(re)), Operators(re, lazy) + ("?" + tail))
              == ParseRepetitions(ShapeRepeated(re), tail)
    decreases re, 1
  {
    hide ParseRepetitions, ShapeAtom;
    if !IsRepeat(re) {
      assert "" + tail == tail;
    } else if lazy {
      var (a, op) := (BodyOf(re), Symbol(re));
      SymbolRepeats(re);
      OperatorsAreRead(a, lazy, [op] + "?" + tail);
      assert Operators(re, lazy) + tail == Operators(a, lazy) + ([op] + "?" + tail);
      OneOperator(ShapeRepeated(a), op, "?", tail);
    } else {
      assert "" + tail == tail;
      if tail == [] || tail[0] != '?' { GreedyOperator(re, "", tail); }
      GreedyOperator(re, "?", tail);
    }
  }

  lemma LastOperator(re: Re)
    requires IsRepeat(re)
    ensures Operators(re, false)
         == Operators(BodyOf(re), false) + (if re.Opt? && IsRepeat(BodyOf(re)) then "??" else [Symbol(re)])
  {
    hide Operators, Core;
    assert "*" + "" == "*" && "+" + "" == "+" && "?" + "" == "?";
    OperatorsEnd(re);
  }

  lemma OperatorsEnd(re: Re)
    requires IsRepeat(re)
    ensures Operators(re, false) == Operators(BodyOf(re), false) + Operator(re, false)
  {
    hide Operator;
  }

  lemma GreedyOperators(re: Re, mark: string, tail: string)
    requires IsRepeat(re)
    ensures var next := [Symbol(re)] + mark + tail;
            Operators(re, false) + (mark + tail)
            == Operators(BodyOf(re), false) + if re.Opt? && IsRepeat(BodyOf(re)) then "?" + next else next
  {
    hide Operators, Operator;
    LastOperator(re);
    var first := Operators(BodyOf(re), false);
    if re.Opt? && IsRepeat(BodyOf(re)) {
      assert first + "??" + (mark + tail) == first + ("?" + (['?'] + mark + tail));
    } else {
      assert first + [Symbol(re)] + (mark + tail) == first + ([Symbol(re)] + mark + tail);
    }
  }

  lemma {:induction false} GreedyOperator(re: Re, mark: string, tail: string)
    requires IsRepeat(re) && (mark == "?" || (mark == "" && (tail == [] || tail[0] != '?')))
    ensures ParseRepetitions(ShapeAtom(Core(re)), Operators(re, false) + (mark + tail))
         == ParseRepetitions(ShapeRepeated(re), tail)
    decreases re, 0
  {
    hide ParseRepetitions, ShapeAtom, Operators, ShapeRepeated;
    var next := [Symbol(re)] + mark + tail;
    GreedyOperators(re, mark, tail);
    OperatorsAreRead(BodyOf(re), false, next);
    if !IsRepeat(BodyOf(re)) { NoOperators(BodyOf(re), next); }
    SymbolRepeats(re);
    OneOperator(ShapeRepeated(BodyOf(re)), Symbol(re), mark, tail);
  }

  lemma NoOperators(re: Re, next: string)
    requires !IsRepeat(re)
    ensures ParseRepetitions(ShapeAtom(Core(re)), Operators(re, false) + next)
         == ParseRepetitions(ShapeRepeated(re), next)
  {
    assert "" + next == next;
  }

  lemma NothingRepeated(x: Re, rest: string)
    requires NoOperator(rest)
    ensures ParseRepetitions(x, rest) == (x, rest)
  {
  }

  /** A repeated atom in front of a sequence. */
  lemma RepeatedIsRead(re: Re, lazy: bool, rest: string)
    requires NoOperator(rest)
    requires ParseAtom(PrintAtom(Core(re), lazy) + (Operators(re, lazy) + rest))
          == Some((ShapeAtom(Core(re)), Operators(re, lazy) + rest))
    ensures ParseSequence(PrintRepeated(re, lazy) + rest)
         == match ParseSequence(rest)
            case None => None
            case Some((tail, after)) => Some((Concat(ShapeRepeated(re), tail), after))
  {
    hide PrintAtom, ShapeAtom, ParseAtom, ParseRepetitions;
    RepeatedIsCore(re, lazy);
    PrintedStarts(re, lazy);
    OperatorsAreRead(re, lazy, rest);
    NothingRepeated(ShapeRepeated(re), rest);
    assert PrintRepeated(re, lazy) + rest == PrintAtom(Core(re), lazy) + (Operators(re, lazy) + rest);
  }

  lemma {:induction false} AtomIsRead(re: Re, lazy: bool, rest: string)
    requires !IsRepeat(re)
    ensures ParseAtom(PrintAtom(re, lazy) + rest) == Some((ShapeAtom(re), rest))
    decreases re, 1
  {
    match re
    case Literal(c) => LiteralIsRead(c, rest);
    case AnyChar => assert ("." + rest)[1..] == rest;
    case Bol => assert ("^" + rest)[1..] == rest;
    case Eol => assert ("$" + rest)[1..] == rest;
    case Empty =>
      BracketsAreRead("(?:", "", Empty, rest);
      assert "(?:" + "" + ")" + rest == "(?:)" + rest;
    case Group(a) =>
      AlternativesAreRead(a, lazy, ")" + rest);
      AlternativesStart(a, lazy);
      BracketsAreRead("(", PrintAlternatives(a, lazy), ShapeAlternatives(a), rest);
    case Concat(a, b) =>
      var inner := PrintRepeated(a, lazy) + PrintSequence(b, lazy);
      ConcatIsRead(a, b, lazy, ")" + rest);
      BracketsAreRead("(?:", inner, Concat(ShapeRepeated(a), ShapeSequence(b)), rest);
    case Either(a, b) =>
      var inner := PrintSequence(a, lazy) + "|" + PrintAlternatives(b, lazy);
      EitherIsRead(a, b, lazy, ")" + rest);
      BracketsAreRead("(?:", inner, Either(ShapeSequence(a), ShapeAlternatives(b)), rest);
  }

  lemma LiteralIsRead(c: char, rest: string)
    ensures ParseAtom(PrintAtom(Literal(c), false) + rest) == Some((Literal(c), rest))
    ensures PrintAtom(Literal(c), true) == PrintAtom(Literal(c), false)
  {
    if IsMeta(c) { assert (['\\', c] + rest)[2..] == rest; } else { assert ([c] + rest)[1..] == rest; }
  }

  lemma NothingInBrackets(rest: string)
    ensures ParseAlternatives(")" + rest) == Some((Empty, ")" + rest))
  {
    assert ParseSequence(")" + rest) == Some((Empty, ")" + rest));
  }

  lemma BracketsAreRead(bracket: string, inner: string, tree: Re, rest: string)
    requires bracket == "(?:" || (bracket == "(" && (inner == [] || inner[0] != '?'))
    requires ParseAlternatives(inner + (")" + rest)) == Some((tree, ")" + rest))
           || (inner == "" && tree == Empty && bracket == "(?:")
    ensures ParseAtom(bracket + inner + ")" + rest) == Some((Group(tree), rest))
  {
    hide ParseAlternatives, ParseSequence;
    var s := bracket + inner + ")" + rest;
    assert s[|bracket|..] == inner + (")" + rest);
    assert (")" + rest)[1..] == rest;
    NothingInBrackets(rest);
    if inner == "" { assert inner + (")" + rest) == ")" + rest; }
  }

  lemma {:induction false} ConcatIsRead(a: Re, b: Re, lazy: bool, rest: string)
    requires EndsSequence(rest)
    ensures ParseSequence(PrintRepeated(a, lazy) + PrintSequence(b, lazy) + rest)
         == Some((Concat(ShapeRepeated(a), ShapeSequence(b)), rest))
    ensures EndsAlternatives(rest) ==>
              ParseAlternatives(PrintRepeated(a, lazy) + PrintSequence(b, lazy) + rest)
              == Some((Concat(ShapeRepeated(a), ShapeSequence(b)), rest))
    decreases Concat(a, b), 0
  {
    hide PrintAtom, ShapeAtom, ParseAtom, ParseSequence, PrintRepeated, PrintSequence;
    CoreIsBelow(a);
    AtomIsRead(Core(a), lazy, Operators(a, lazy) + (PrintSequence(b, lazy) + rest));
    SequenceStarts(b, lazy, rest);
    RepeatedIsRead(a, lazy, PrintSequence(b, lazy) + rest);
    SequenceIsRead(b, lazy, rest);
    assert PrintRepeated(a, lazy) + PrintSequence(b, lazy) + rest
        == PrintRepeated(a, lazy) + (PrintSequence(b, lazy) + rest);
  }

  lemma {:induction false} CoreIsBelow(re: Re)
    ensures Core(re) == re || Core(re) < re
  {
    if IsRepeat(re) { CoreIsBelow(BodyOf(re)); }
  }

  lemma {:induction false} SequenceIsRead(re: Re, lazy: bool, rest: string)
    requires EndsSequence(rest)
    ensures ParseSequence(PrintSequence(re, lazy) + rest) == Some((ShapeSequence(re), rest))
    decreases re, 2
  {
    match re
    case Empty => assert "" + rest == rest;
    case Concat(a, b) => ConcatIsRead(a, b, lazy, rest);
    case _ =>
      CoreIsBelow(re);
      AtomIsRead(Core(re), lazy, Operators(re, lazy) + rest);
      RepeatedIsRead(re, lazy, rest);
  }

  lemma TwoAlternatives(first: string, left: Re, others: string, right: Re, rest: string)
    requires ParseSequence(first + ("|" + others)) == Some((left, "|" + others))
    requires ParseAlternatives(others) == Some((right, rest))
    ensures ParseAlternatives(first + ("|" + others)) == Some((Either(left, right), rest))
  {
    assert ("|" + others)[1..] == others;
  }

  lemma {:induction false} EitherIsRead(a: Re, b: Re, lazy: bool, rest: string)
    requires EndsAlternatives(rest)
    ensures ParseAlternatives(PrintSequence(a, lazy) + "|" + PrintAlternatives(b, lazy) + rest)
         == Some((Either(ShapeSequence(a), ShapeAlternatives(b)), rest))
    decreases Either(a, b), 0
  {
    hide ParseSequence, ParseAlternatives, PrintSequence, PrintAlternatives, ShapeSequence, ShapeAlternatives;
    var others := PrintAlternatives(b, lazy) + rest;
    SequenceIsRead(a, lazy, "|" + others);
    AlternativesAreRead(b, lazy, rest);
    TwoAlternatives(PrintSequence(a, lazy), ShapeSequence(a), others, ShapeAlternatives(b), rest);
    assert PrintSequence(a, lazy) + "|" + PrintAlternatives(b, lazy) + rest == PrintSequence(a, lazy) + ("|" + others);
  }

  lemma {:induction false} AlternativesAreRead(re: Re, lazy: bool, rest: string)
    requires EndsAlternatives(rest)
    ensures ParseAlternatives(PrintAlternatives(re, lazy) + rest) == Some((ShapeAlternatives(re), rest))
    decreases re, 3
  {
    match re
    case Either(a, b) => EitherIsRead(a, b, lazy, rest);
    case _ => SequenceIsRead(re, lazy, rest);
  }

  // ---------------------------------------------------------------- what a printed pattern accepts

  /** A pattern written for a tree, in greedy or lazy spelling, accepts exactly the names that the tree matches
      from end to end. */
  lemma PrintedPatternMatchesItsTree(re: Re, lazy: bool, name: string)
    requires 0 < |PrintAlternatives(re, lazy)| <= MAX_PATTERN_LEN && Nest(ShapeAlternatives(re)) <= NEST_LIMIT - 2
    ensures CompilePattern(PrintAlternatives(re, lazy)).Some?
    ensures IsMatch(CompilePattern(PrintAlternatives(re, lazy)).value, name) <==> MatchesAt(re, name, 0, |name|)
  {
    var text := PrintAlternatives(re, lazy);
    AlternativesAreRead(re, lazy, "");
    assert text + "" == text;
    assert ParsePattern(text) == Some(ShapeAlternatives(re));
    CompilesExactlyWhen(text);
    CompiledAcceptsWholeNames(text, name);
    ShapeMatches(re, name, 0, |name|);
  }

  /** Without anchors these are the words of the tree. */
  lemma PrintedPatternAcceptsItsLanguage(re: Re, lazy: bool, name: string)
    requires AnchorFree(re)
    requires 0 < |PrintAlternatives(re, lazy)| <= MAX_PATTERN_LEN && Nest(ShapeAlternatives(re)) <= NEST_LIMIT - 2
    ensures CompilePattern(PrintAlternatives(re, lazy)).Some?
    ensures IsMatch(CompilePattern(PrintAlternatives(re, lazy)).value, name) <==> InLanguage(re, name)
  {
    PrintedPatternMatchesItsTree(re, lazy, name);
    MatchingIsMembership(re, name, 0, |name|);
    assert name[0..|name|] == name;
  }

  /** For instance, a dot is any one character but a newline, and a star any number of them. */
  lemma DotIsAnyButNewline(name: string)
    ensures CompilePattern(".").Some? && CompilePattern(".*").Some?
    ensures IsMatch(CompilePattern(".").value, name) <==> |name| == 1 && '\n' !in name
    ensures IsMatch(CompilePattern(".*").value, name) <==> '\n' !in name
  {
    hide CompilePattern, IsMatch;
    PrintedPatternAcceptsItsLanguage(AnyChar, false, name);
    PrintedPatternAcceptsItsLanguage(Star(AnyChar), false, name);
    assert PrintAlternatives(AnyChar, false) == "." && PrintAlternatives(Star(AnyChar), false) == ".*";
    StarOfDots(name);
  }

  lemma {:induction false} StarOfDots(w: string)
    ensures InLanguage(Star(AnyChar), w) <==> '\n' !in w
  {
    if w != "" {
      assert w == w[..1] + w[1..];
      StarOfDots(w[1..]);
    }
  }

  // ---------------------------------------------------------------- nothing else is a pattern

  /** The grammar of patterns: the text is a way to write the tree. */
  predicate SpellsAlternatives(re: Re, t: string)
    decreases re, 3
  {
    if re.Either? then
      exists i | 0 <= i < |t| ::
        t[i] == '|' && SpellsSequence(re.left, t[..i]) && SpellsAlternatives(re.right, t[i + 1..])
    else SpellsSequence(re, t)
  }

  predicate SpellsSequence(re: Re, t: string)
    decreases re, 2
  {
    match re
    case Empty => t == ""
    case Concat(a, b) => exists i | 0 <= i <= |t| :: SpellsRepeated(a, t[..i]) && SpellsSequence(b, t[i..])
    case _ => false
  }

  /** A repetition has its operator at the end, alone or with the lazy mark. */
  predicate SpellsRepeated(re: Re, t: string)
    decreases re, 1
  {
    if IsRepeat(re) then
      || (|t| >= 1 && t[|t| - 1] == Symbol(re) && SpellsRepeated(BodyOf(re), t[..|t| - 1]))
      || (|t| >= 2 && t[|t| - 1] == '?' && t[|t| - 2] == Symbol(re) && SpellsRepeated(BodyOf(re), t[..|t| - 2]))
    else SpellsAtom(re, t)
  }

  predicate SpellsAtom(re: Re, t: string)
    decreases re, 0
  {
    match re
    case Literal(c) => (t == [c] && c !in "\\.+*?()|[{^$") || (t == ['\\', c] && c in "\\.+*?()|[]{}^$#&-~")
    case AnyChar => t == "."
    case Bol => t == "^"
    case Eol => t == "$"
    case Group(a) =>
      || (|t| >= 2 && t[0] == '(' && t[|t| - 1] == ')' && SpellsAlternatives(a, t[1..|t| - 1]))
      || (|t| >= 4 && t[..3] == "(?:" && t[|t| - 1] == ')' && SpellsAlternatives(a, t[3..|t| - 1]))
    case _ => false
  }

  lemma JoinedAlternatives(left: Re, first: string, right: Re, others: string)
    requires SpellsSequence(left, first) && SpellsAlternatives(right, others)
    ensures SpellsAlternatives(Either(left, right), first + "|" + others)
  {
    hide SpellsSequence;
    var whole := first + "|" + others;
    assert whole[..|first|] == first && whole[|first| + 1..] == others && whole[|first|] == '|';
  }

  lemma JoinedSequence(a: Re, first: string, b: Re, others: string)
    requires SpellsRepeated(a, first) && SpellsSequence(b, others)
    ensures SpellsSequence(Concat(a, b), first + others)
  {
    hide SpellsRepeated;
    var whole := first + others;
    assert whole[..|first|] == first && whole[|first|..] == others;
  }

  lemma JoinedOperator(body: Re, first: string, operator: char, mark: string)
    requires SpellsRepeated(body, first) && IsRepetition(operator) && (mark == "" || mark == "?")
    ensures SpellsRepeated(Repeat(body, operator), first + [operator] + mark)
  {
    hide SpellsAtom;
    var whole := first + [operator] + mark;
    var re := Repeat(body, operator);
    assert Symbol(re) == operator && BodyOf(re) == body;
    if mark == "" { assert whole[..|whole| - 1] == first; } else { assert whole[..|whole| - 2] == first; }
  }

  lemma JoinedGroup(inner: Re, bracket: string, text: string)
    requires SpellsAlternatives(inner, text) && (bracket == "(" || bracket == "(?:")
    ensures SpellsRepeated(Group(inner), bracket + text + ")")
  {
    hide SpellsAlternatives;
    var whole := bracket + text + ")";
    assert whole[|bracket|..|whole| - 1] == text && whole[..|bracket|] == bracket;
  }

  lemma {:induction false} SpelledAlternatives(s: string) returns (t: string)
    requires ParseAlternatives(s).Some?
    ensures s == t + ParseAlternatives(s).value.1 && SpellsAlternatives(ParseAlternatives(s).value.0, t)
    decreases |s|, 3
  {
    hide SpellsAlternatives, SpellsSequence, ParseSequence;
    var (left, rest) := ParseSequence(s).value;
    var first := SpelledSequence(s);
    if rest != [] && rest[0] == '|' {
      var others := SpelledAlternatives(rest[1..]);
      JoinedAlternatives(left, first, ParseAlternatives(rest[1..]).value.0, others);
      assert rest == "|" + rest[1..];
      t := first + "|" + others;
    } else {
      NoAlternative(s, first);
      t := first;
    }
  }

  lemma NoAlternative(s: string, t: string)
    requires ParseSequence(s).Some? && SpellsSequence(ParseSequence(s).value.0, t)
    ensures SpellsAlternatives(ParseSequence(s).value.0, t)
  {
    hide SpellsRepeated, ParseAtom, ParseRepetitions;
  }

  lemma {:induction false} SpelledSequence(s: string) returns (t: string)
    requires ParseSequence(s).Some?
    ensures s == t + ParseSequence(s).value.1 && SpellsSequence(ParseSequence(s).value.0, t)
    decreases |s|, 2
  {
    hide SpellsRepeated, ParseAtom, ParseRepetitions;
    if s == [] || s[0] in "|)" {
      t := "";
    } else {
      hide SpellsSequence;
      var first := SpelledAtom(s);
      var (atom, rest) := ParseAtom(s).value;
      var operators := SpelledRepetitions(atom, first, rest);
      var (repeated, rest') := ParseRepetitions(atom, rest);
      var others := SpelledSequence(rest');
      JoinedSequence(repeated, first + operators, ParseSequence(rest').value.0, others);
      assert first + operators + others + ParseSequence(rest').value.1 == first + (operators + rest');
      t := first + operators + others;
    }
  }

  lemma {:induction false} SpelledRepetitions(atom: Re, first: string, s: string) returns (t: string)
    requires SpellsRepeated(atom, first)
    ensures s == t + ParseRepetitions(atom, s).1 && SpellsRepeated(ParseRepetitions(atom, s).0, first + t)
    decreases |s|
  {
    hide SpellsRepeated, Repeat;
    if s == [] || !IsRepetition(s[0]) {
      t := "";
      assert first + t == first;
    } else {
      var mark := if |s| > 1 && s[1] == '?' then "?" else "";
      JoinedOperator(atom, first, s[0], mark);
      var operator := [s[0]] + mark;
      assert s == operator + s[|operator|..] && first + [s[0]] + mark == first + operator;
      var others := SpelledRepetitions(Repeat(atom, s[0]), first + operator, s[|operator|..]);
      t := operator + others;
      assert first + t == first + operator + others;
    }
  }

  lemma {:induction false} SpelledAtom(s: string) returns (t: string)
    requires s != [] && s[0] !in "|)" && ParseAtom(s).Some?
    ensures s == t + ParseAtom(s).value.1 && SpellsRepeated(ParseAtom(s).value.0, t)
    decreases |s|, 1
  {
    hide SpellsAlternatives, ParseAlternatives;
    if s[0] == '(' {
      var bracket := if |s| > 2 && s[1] == '?' && s[2] == ':' then "(?:" else "(";
      var inner := s[|bracket|..];
      assert s == bracket + inner;
      var text := SpelledAlternatives(inner);
      JoinedGroup(ParseAlternatives(inner).value.0, bracket, text);
      var rest := ParseAlternatives(inner).value.1;
      assert rest == ")" + rest[1..];
      t := bracket + text + ")";
    } else {
      t := s[..if s[0] == '\\' then 2 else 1];
    }
  }

  /** A text compiles only if the grammar has it, and then it matches a tree that the grammar gives it. */
  lemma OnlySpelledPatternsCompile(text: string, name: string) returns (re: Re)
    requires CompilePattern(text).Some?
    ensures SpellsAlternatives(re, text)
    ensures IsMatch(CompilePattern(text).value, name) <==> MatchesAt(re, name, 0, |name|)
  {
    CompilesExactlyWhen(text);
    CompiledAcceptsWholeNames(text, name);
    re := ParsePattern(text).value;
    var t := SpelledAlternatives(text);
    assert t == text;
  }
}
