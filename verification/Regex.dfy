/** Policy patterns: a parser for a subset of the regex syntax, the meaning of a parsed
    pattern, and the anchoring done by `compile_pattern`.

    The subset has literals, escaped metacharacters, `.`, `*`, `+`, `?` (each also in its
    lazy spelling), `|`, both kinds of plain group, `^` and `$`. Anything else is a syntax
    error of the model. */
module Regex {
  import opened Basics

  const MAX_PATTERN_LEN: nat := 512

  /** The library's default limit on the nesting of a pattern. */
  const NEST_LIMIT: nat := 250

  datatype Re =
    | Empty
    | Literal(c: char)
    | AnyChar
    | Bol
    | Eol
    | Concat(first: Re, rest: Re)
    | Either(left: Re, right: Re)
    | Star(body: Re)
    | Plus(body: Re)
    | Opt(body: Re)
    | Group(inner: Re)

  // ---------------------------------------------------------------- syntax

  /** A parsed prefix and the text after it. */
  type Parse = Option<(Re, string)>

  predicate IsMeta(c: char) { c in "\\.+*?()|[]{}^$#&-~" }

  predicate IsRepetition(c: char) { c in "*+?" }

  /** Alternatives separated by `|`, up to the end of the text or an unmatched `)`. */
  function ParseAlternatives(s: string): (r: Parse)
    decreases |s|, 3
    ensures r.Some? ==> |r.value.1| <= |s| && (r.value.1 == [] || r.value.1[0] == ')')
  {
    match ParseSequence(s)
    case None => None
    case Some((left, rest)) =>
      if rest == [] || rest[0] != '|' then Some((left, rest))
      else
        match ParseAlternatives(rest[1..])
        case None => None
        case Some((right, rest')) => Some((Either(left, right), rest'))
  }

  /** A possibly empty sequence of repeated atoms. */
  function ParseSequence(s: string): (r: Parse)
    decreases |s|, 2
    ensures r.Some? ==> |r.value.1| <= |s| && (r.value.1 == [] || r.value.1[0] in "|)")
  {
    if s == [] || s[0] in "|)" then Some((Empty, s))
    else
      match ParseAtom(s)
      case None => None
      case Some((atom, rest)) =>
        var (repeated, rest') := ParseRepetitions(atom, rest);
        match ParseSequence(rest')
        case None => None
        case Some((tail, rest'')) => Some((Concat(repeated, tail), rest''))
  }

  /** The repetition operators after an atom, each with its optional lazy mark. */
  function ParseRepetitions(atom: Re, s: string): (r: (Re, string))
    decreases |s|
    ensures |r.1| <= |s|
  {
    if s == [] || !IsRepetition(s[0]) then (atom, s)
    else
      var after := if |s| > 1 && s[1] == '?' then s[2..] else s[1..];
      ParseRepetitions(Repeat(atom, s[0]), after)
  }

  function Repeat(body: Re, operator: char): Re {
    match operator
    case '*' => Star(body)
    case '+' => Plus(body)
    case _ => Opt(body)
  }

  function ParseAtom(s: string): (r: Parse)
    requires s != [] && s[0] !in "|)"
    decreases |s|, 1
    ensures r.Some? ==> |r.value.1| < |s|
  {
    if s[0] == '(' then
      if |s| > 2 && s[1] == '?' && s[2] == ':' then CloseGroup(ParseAlternatives(s[3..]))
      else if |s| > 1 && s[1] == '?' then None
      else CloseGroup(ParseAlternatives(s[1..]))
    else if s[0] == '.' then Some((AnyChar, s[1..]))
    else if s[0] == '^' then Some((Bol, s[1..]))
    else if s[0] == '$' then Some((Eol, s[1..]))
    else if s[0] == '\\' then
      if |s| > 1 && IsMeta(s[1]) then Some((Literal(s[1]), s[2..])) else None
    else if s[0] in "*+?{[" then None
    else Some((Literal(s[0]), s[1..]))
  }

  function CloseGroup(inner: Parse): (r: Parse)
    ensures r.Some? ==> inner.Some? && |r.value.1| < |inner.value.1|
  {
    if inner.Some? && inner.value.1 != [] && inner.value.1[0] == ')'
    then Some((Group(inner.value.0), inner.value.1[1..]))
    else None
  }

  /** The whole text as one pattern; an unmatched `)` is an error. */
  function ParsePattern(s: string): Option<Re> {
    match ParseAlternatives(s)
    case None => None
    case Some((re, rest)) => if rest == [] then Some(re) else None
  }

  function Wrapped(pattern: string): string { "^(?:" + pattern + ")$" }

  function Max(a: nat, b: nat): nat { if a >= b then a else b }

  /** How deeply a pattern nests. A sequence of two or more items and a set of alternatives each count
      once, however long they are; so do a group and a repetition. */
  function Nest(re: Re): nat
    decreases re, 0
  {
    match re
    case Concat(a, Empty) => Nest(a)
    case Concat(a, rest) => 1 + Max(Nest(a), NestOfItems(rest))
    case Either(a, b) => 1 + Max(Nest(a), NestOfAlternatives(b))
    case Star(a) => 1 + Nest(a)
    case Plus(a) => 1 + Nest(a)
    case Opt(a) => 1 + Nest(a)
    case Group(a) => 1 + Nest(a)
    case _ => 0
  }

  function NestOfItems(re: Re): nat
    decreases re, 1
  {
    match re
    case Concat(a, rest) => Max(Nest(a), NestOfItems(rest))
    case _ => Nest(re)
  }

  function NestOfAlternatives(re: Re): nat
    decreases re, 1
  {
    match re
    case Either(a, b) => Max(Nest(a), NestOfAlternatives(b))
    case _ => Nest(re)
  }

  /** `build_limited`, as far as the nesting limit is concerned. */
  function Build(pattern: string): Option<Re> {
    var parsed := ParsePattern(pattern);
    if parsed.Some? && Nest(parsed.value) <= NEST_LIMIT then parsed else None
  }

  /** `compile_pattern`: the bare pattern must build before it is wrapped in anchors. */
  function CompilePattern(pattern: string): Option<Re> {
    if pattern == [] || |pattern| > MAX_PATTERN_LEN then None
    else if Build(pattern).None? then None
    else Build(Wrapped(pattern))
  }

  /** The tree of an anchored pattern. */
  function Anchored(re: Re): Re { Concat(Bol, Concat(Group(re), Concat(Eol, Empty))) }

  // ---------------------------------------------------------------- parser extension

  /** Text that may follow a parsed prefix without being absorbed by it. */
  predicate Stops(rest: string, extra: string) {
    rest != [] || extra == [] || extra[0] == ')'
  }

  lemma {:induction false} ExtendAlternatives(s: string, u: string)
    requires ParseAlternatives(s).Some? && Stops(ParseAlternatives(s).value.1, u)
    ensures var (re, rest) := ParseAlternatives(s).value;
            ParseAlternatives(s + u) == Some((re, rest + u))
    decreases |s|, 3
  {
    ExtendSequence(s, u);
    var (left, rest) := ParseSequence(s).value;
    if rest != [] && rest[0] == '|' {
      ExtendAlternatives(rest[1..], u);
      assert (rest + u)[1..] == rest[1..] + u;
    }
  }

  lemma {:induction false} ExtendSequence(s: string, u: string)
    requires ParseSequence(s).Some? && Stops(ParseSequence(s).value.1, u)
    ensures var (re, rest) := ParseSequence(s).value;
            ParseSequence(s + u) == Some((re, rest + u))
    decreases |s|, 2
  {
    if s == [] {
      assert s + u == u;
    } else if s[0] in "|)" {
    } else {
      var (atom, rest) := ParseAtom(s).value;
      ExtendAtom(s, u);
      ExtendRepetitions(atom, rest, u);
      var (repeated, rest') := ParseRepetitions(atom, rest);
      ExtendSequence(rest', u);
    }
  }

  lemma {:induction false} ExtendRepetitions(atom: Re, s: string, u: string)
    requires u == [] || u[0] == ')' || ParseRepetitions(atom, s).1 != []
    ensures var (re, rest) := ParseRepetitions(atom, s);
            ParseRepetitions(atom, s + u) == (re, rest + u)
    decreases |s|
  {
    if s == [] {
      assert s + u == u;
    } else if IsRepetition(s[0]) {
      if |s| > 1 && s[1] == '?' {
        assert (s + u)[2..] == s[2..] + u;
        ExtendRepetitions(Repeat(atom, s[0]), s[2..], u);
      } else {
        assert (s + u)[1..] == s[1..] + u;
        assert |s| == 1 ==> ParseRepetitions(Repeat(atom, s[0]), s[1..]) == (Repeat(atom, s[0]), []);
        assert |s| == 1 && u != [] ==> (s + u)[1] == ')';
        ExtendRepetitions(Repeat(atom, s[0]), s[1..], u);
      }
    }
  }

  lemma {:induction false} ExtendAtom(s: string, u: string)
    requires s != [] && s[0] !in "|)" && ParseAtom(s).Some?
    ensures var (re, rest) := ParseAtom(s).value;
            ParseAtom(s + u) == Some((re, rest + u))
    decreases |s|, 1
  {
    assert (s + u)[0] == s[0];
    assert (s + u)[1..] == s[1..] + u;
    if |s| > 1 {
      assert (s + u)[1] == s[1];
      assert (s + u)[2..] == s[2..] + u;
    }
    if s[0] == '(' {
      var skip := if |s| > 2 && s[1] == '?' && s[2] == ':' then 3 else 1;
      if skip == 3 { assert (s + u)[3..] == s[3..] + u; }
      var (inner, rest) := ParseAlternatives(s[skip..]).value;
      ExtendAlternatives(s[skip..], u);
      assert (rest + u)[1..] == rest[1..] + u;
    }
  }

  /** One unrepeated atom in front of a sequence. */
  lemma SequenceStep(s: string)
    requires s != [] && s[0] !in "|)" && ParseAtom(s).Some?
    requires var rest := ParseAtom(s).value.1; rest == [] || !IsRepetition(rest[0])
    ensures var (atom, rest) := ParseAtom(s).value;
            ParseSequence(s) == match ParseSequence(rest)
                                case None => None
                                case Some((tail, after)) => Some((Concat(atom, tail), after))
  {
  }

  /** A pattern between group brackets is one atom: the group of that pattern's tree. */
  lemma GroupAtom(bracket: string, pattern: string, after: string)
    requires bracket == "(" || bracket == "(?:"
    requires bracket == "(" ==> |pattern| > 0 && pattern[0] != '?'
    requires ParsePattern(pattern).Some?
    ensures ParseAtom(bracket + pattern + ")" + after) == Some((Group(ParsePattern(pattern).value), after))
  {
    var s := bracket + pattern + ")" + after;
    assert s[|bracket|..] == pattern + (")" + after);
    ExtendAlternatives(pattern, ")" + after);
    assert [] + (")" + after) == ")" + after;
    assert (")" + after)[1..] == after;
  }

  /** The end anchor alone. */
  lemma EndAnchor()
    ensures ParseSequence("$") == Some((Concat(Eol, Empty), []))
  {
    assert "$"[1..] == [];
    assert ParseAtom("$") == Some((Eol, []));
    assert ParseSequence([]) == Some((Empty, []));
    SequenceStep("$");
  }

  /** A pattern that parses on its own parses, once wrapped, to exactly the start anchor, a
      group of the same tree and the end anchor: nothing escapes the group. */
  lemma WrappedParsesToAnchored(pattern: string)
    requires ParsePattern(pattern).Some?
    ensures ParsePattern(Wrapped(pattern)) == Some(Anchored(ParsePattern(pattern).value))
  {
    var group := "(?:" + pattern + ")" + "$";
    GroupAtom("(?:", pattern, "$");
    EndAnchor();
    SequenceStep(group);
    StartAnchor(group);
    assert "^" + group == Wrapped(pattern);
  }

  /** The start anchor in front of a group. */
  lemma StartAnchor(group: string)
    requires group != [] && group[0] == '('
    ensures ParseSequence("^" + group) == match ParseSequence(group)
                                          case None => None
                                          case Some((tail, after)) => Some((Concat(Bol, tail), after))
  {
    assert ("^" + group)[1..] == group;
    SequenceStep("^" + group);
  }

  // ---------------------------------------------------------------- meaning

  /** `re` matches the characters of `s` from `i` up to `j`; anchors look at the whole of `s`. */
  predicate MatchesAt(re: Re, s: string, i: nat, j: nat)
    requires i <= j <= |s|
    decreases re, j - i
  {
    match re
    case Empty => i == j
    case Literal(c) => j == i + 1 && s[i] == c
    case AnyChar => j == i + 1 && s[i] != '\n'
    case Bol => i == j == 0
    case Eol => i == j == |s|
    case Concat(a, b) => exists k | i <= k <= j :: MatchesAt(a, s, i, k) && MatchesAt(b, s, k, j)
    case Either(a, b) => MatchesAt(a, s, i, j) || MatchesAt(b, s, i, j)
    case Star(a) => i == j || exists k | i < k <= j :: MatchesAt(a, s, i, k) && MatchesAt(re, s, k, j)
    case Plus(a) =>
      MatchesAt(a, s, i, j) || exists k | i < k <= j :: MatchesAt(a, s, i, k) && MatchesAt(re, s, k, j)
    case Opt(a) => i == j || MatchesAt(a, s, i, j)
    case Group(a) => MatchesAt(a, s, i, j)
  }

  /** `Regex::is_match`: a match anywhere in the text. */
  predicate IsMatch(re: Re, s: string) {
    exists i, j | 0 <= i <= j <= |s| :: MatchesAt(re, s, i, j)
  }

  /** The words of a pattern without anchors, defined on words alone. */
  ghost predicate InLanguage(re: Re, w: string)
    decreases re, |w|
  {
    match re
    case Empty => w == []
    case Literal(c) => w == [c]
    case AnyChar => |w| == 1 && w[0] != '\n'
    case Bol => false
    case Eol => false
    case Concat(a, b) => exists k | 0 <= k <= |w| :: InLanguage(a, w[..k]) && InLanguage(b, w[k..])
    case Either(a, b) => InLanguage(a, w) || InLanguage(b, w)
    case Star(a) => w == [] || exists k | 0 < k <= |w| :: InLanguage(a, w[..k]) && InLanguage(re, w[k..])
    case Plus(a) => InLanguage(a, w) || exists k | 0 < k <= |w| :: InLanguage(a, w[..k]) && InLanguage(re, w[k..])
    case Opt(a) => w == [] || InLanguage(a, w)
    case Group(a) => InLanguage(a, w)
  }

  predicate AnchorFree(re: Re) {
    match re
    case Bol => false
    case Eol => false
    case Concat(a, b) => AnchorFree(a) && AnchorFree(b)
    case Either(a, b) => AnchorFree(a) && AnchorFree(b)
    case Star(a) => AnchorFree(a)
    case Plus(a) => AnchorFree(a)
    case Opt(a) => AnchorFree(a)
    case Group(a) => AnchorFree(a)
    case _ => true
  }

  /** Positional matching of an anchor-free pattern is membership of the word in between. */
  lemma {:induction false} MatchingIsMembership(re: Re, s: string, i: nat, j: nat)
    requires i <= j <= |s| && AnchorFree(re)
    ensures MatchesAt(re, s, i, j) <==> InLanguage(re, s[i..j])
    decreases re, j - i
  {
    var w := s[i..j];
    match re
    case Concat(a, b) =>
      forall k | i <= k <= j
        ensures MatchesAt(a, s, i, k) <==> InLanguage(a, w[..k - i])
        ensures MatchesAt(b, s, k, j) <==> InLanguage(b, w[k - i..])
      {
        assert w[..k - i] == s[i..k] && w[k - i..] == s[k..j];
        MatchingIsMembership(a, s, i, k);
        MatchingIsMembership(b, s, k, j);
      }
      if InLanguage(re, w) {
        var k :| 0 <= k <= |w| && InLanguage(a, w[..k]) && InLanguage(b, w[k..]);
        assert (k + i) - i == k;
        assert MatchesAt(a, s, i, i + k);
      }
    case Star(a) =>
      forall k | i < k <= j
        ensures MatchesAt(a, s, i, k) <==> InLanguage(a, w[..k - i])
        ensures MatchesAt(re, s, k, j) <==> InLanguage(re, w[k - i..])
      {
        assert w[..k - i] == s[i..k] && w[k - i..] == s[k..j];
        MatchingIsMembership(a, s, i, k);
        MatchingIsMembership(re, s, k, j);
      }
      if InLanguage(re, w) && w != [] {
        var k :| 0 < k <= |w| && InLanguage(a, w[..k]) && InLanguage(re, w[k..]);
        assert (k + i) - i == k;
        assert MatchesAt(a, s, i, i + k);
      }
    case Plus(a) =>
      MatchingIsMembership(a, s, i, j);
      forall k | i < k <= j
        ensures MatchesAt(a, s, i, k) <==> InLanguage(a, w[..k - i])
        ensures MatchesAt(re, s, k, j) <==> InLanguage(re, w[k - i..])
      {
        assert w[..k - i] == s[i..k] && w[k - i..] == s[k..j];
        MatchingIsMembership(a, s, i, k);
        MatchingIsMembership(re, s, k, j);
      }
      if InLanguage(re, w) && !InLanguage(a, w) {
        var k :| 0 < k <= |w| && InLanguage(a, w[..k]) && InLanguage(re, w[k..]);
        assert (k + i) - i == k;
        assert MatchesAt(a, s, i, i + k);
      }
    case Opt(a) =>
      MatchingIsMembership(a, s, i, j);
    case Either(a, b) =>
      MatchingIsMembership(a, s, i, j);
      MatchingIsMembership(b, s, i, j);
    case Group(a) =>
      MatchingIsMembership(a, s, i, j);
    case _ =>
  }

  lemma SplitConcat(a: Re, b: Re, s: string, i: nat, j: nat) returns (k: nat)
    requires i <= j <= |s| && MatchesAt(Concat(a, b), s, i, j)
    ensures i <= k <= j && MatchesAt(a, s, i, k) && MatchesAt(b, s, k, j)
  {
    k :| i <= k <= j && MatchesAt(a, s, i, k) && MatchesAt(b, s, k, j);
  }

  /** An anchored tree matches somewhere in a text exactly when its inner tree matches all of it. */
  lemma AnchoredMatchesWhole(re: Re, s: string)
    ensures IsMatch(Anchored(re), s) <==> MatchesAt(re, s, 0, |s|)
  {
    var end := Concat(Eol, Empty);
    if IsMatch(Anchored(re), s) {
      var i, j :| 0 <= i <= j <= |s| && MatchesAt(Anchored(re), s, i, j);
      var k := SplitConcat(Bol, Concat(Group(re), end), s, i, j);
      var m := SplitConcat(Group(re), end, s, k, j);
      var n := SplitConcat(Eol, Empty, s, m, j);
    }
    if MatchesAt(re, s, 0, |s|) {
      assert MatchesAt(Eol, s, |s|, |s|) && MatchesAt(Empty, s, |s|, |s|);
      assert MatchesAt(Concat(Eol, Empty), s, |s|, |s|);
      assert MatchesAt(Group(re), s, 0, |s|);
      assert MatchesAt(Concat(Group(re), end), s, 0, |s|);
      assert MatchesAt(Bol, s, 0, 0);
      assert MatchesAt(Anchored(re), s, 0, |s|);
    }
  }

  lemma AnchorsNestTwice(re: Re)
    ensures Nest(Anchored(re)) == Nest(re) + 2
  {
    assert NestOfItems(Concat(Eol, Empty)) == 0;
    assert NestOfItems(Concat(Group(re), Concat(Eol, Empty))) == 1 + Nest(re);
  }

  /** A pattern compiles exactly when it has an admissible length, parses on its own and leaves room in the
      nesting limit for the two levels that the wrapping adds. */
  lemma CompilesExactlyWhen(pattern: string)
    ensures CompilePattern(pattern).Some?
        <==> (0 < |pattern| <= MAX_PATTERN_LEN && ParsePattern(pattern).Some?
              && Nest(ParsePattern(pattern).value) <= NEST_LIMIT - 2)
    ensures CompilePattern(pattern).Some? ==> CompilePattern(pattern).value == Anchored(ParsePattern(pattern).value)
  {
    if ParsePattern(pattern).Some? {
      WrappedParsesToAnchored(pattern);
      AnchorsNestTwice(ParsePattern(pattern).value);
    }
  }

  /** What a stored pattern decides: a name is accepted exactly when the pattern compiles and its bare
      form matches the whole of the name. */
  lemma CompiledAcceptsWholeNames(pattern: string, name: string)
    ensures (CompilePattern(pattern).Some? && IsMatch(CompilePattern(pattern).value, name))
        <==> (0 < |pattern| <= MAX_PATTERN_LEN && ParsePattern(pattern).Some?
              && Nest(ParsePattern(pattern).value) <= NEST_LIMIT - 2
              && MatchesAt(ParsePattern(pattern).value, name, 0, |name|))
  {
    CompilesExactlyWhen(pattern);
    if ParsePattern(pattern).Some? { AnchoredMatchesWhole(ParsePattern(pattern).value, name); }
  }

  /** For a pattern without anchors of its own that decision is the textbook language. */
  lemma CompiledAcceptsLanguage(pattern: string, name: string)
    requires CompilePattern(pattern).Some? && AnchorFree(ParsePattern(pattern).value)
    ensures IsMatch(CompilePattern(pattern).value, name)
        <==> InLanguage(ParsePattern(pattern).value, name)
  {
    CompilesExactlyWhen(pattern);
    CompiledAcceptsWholeNames(pattern, name);
    MatchingIsMembership(ParsePattern(pattern).value, name, 0, |name|);
    assert name[0..|name|] == name;
  }

  // ---------------------------------------------------------------- a pattern that only builds bare

  /** A letter within `n` groups. */
  function Groups(n: nat): (s: string)
    ensures |s| == 2 * n + 1
  {
    if n == 0 then "a" else "(" + Groups(n - 1) + ")"
  }

  lemma OneAtom(s: string)
    requires s != [] && s[0] !in "|)" && ParseAtom(s).Some? && ParseAtom(s).value.1 == []
    ensures ParsePattern(s) == Some(Concat(ParseAtom(s).value.0, Empty))
  {
    assert ParseSequence([]) == Some((Empty, []));
    SequenceStep(s);
  }

  lemma {:induction false} GroupsNest(n: nat)
    ensures ParsePattern(Groups(n)).Some? && Nest(ParsePattern(Groups(n)).value) == n
    ensures Groups(n)[0] != '?' && Groups(n)[0] !in "|)"
  {
    if n == 0 {
      assert "a"[1..] == [];
      assert ParseAtom("a") == Some((Literal('a'), []));
      OneAtom("a");
    } else {
      GroupsNest(n - 1);
      GroupAtom("(", Groups(n - 1), "");
      assert "(" + Groups(n - 1) + ")" + "" == Groups(n);
      OneAtom(Groups(n));
    }
  }

  /** A letter within 250 groups, 501 characters, builds on its own and does not compile: the wrapping
      passes the limit, and the pattern is refused. */
  lemma WrappingCanPassTheLimit()
    ensures |Groups(NEST_LIMIT)| <= MAX_PATTERN_LEN
    ensures Build(Groups(NEST_LIMIT)).Some? && CompilePattern(Groups(NEST_LIMIT)).None?
  {
    GroupsNest(NEST_LIMIT);
    CompilesExactlyWhen(Groups(NEST_LIMIT));
  }

  lemma LastAlternative(q: string)
    requires ParsePattern(q).Some? && q != [] && q[0] != '?'
    ensures ParseSequence("(" + q + ")" + "$")
         == Some((Concat(Group(ParsePattern(q).value), Concat(Eol, Empty)), []))
  {
    GroupAtom("(", q, "$");
    EndAnchor();
    SequenceStep("(" + q + ")" + "$");
  }

  lemma FirstAlternative(p: string, others: string)
    requires ParsePattern(p).Some?
    ensures ParseSequence("^" + ("(?:" + p + ")" + ("|" + others)))
         == Some((Concat(Bol, Concat(Group(ParsePattern(p).value), Empty)), "|" + others))
  {
    var first := "(?:" + p + ")" + ("|" + others);
    GroupAtom("(?:", p, "|" + others);
    assert ParseSequence("|" + others) == Some((Empty, "|" + others));
    SequenceStep(first);
    StartAnchor(first);
  }

  /** Wrapping the text `p)|(q` gives two alternatives, each with only one of the anchors. */
  lemma WrappedAlternativesEscape(p: string, q: string)
    requires ParsePattern(p).Some? && ParsePattern(q).Some? && q != [] && q[0] != '?'
    ensures ParsePattern(Wrapped(p + ")|(" + q))
         == Some(Either(Concat(Bol, Concat(Group(ParsePattern(p).value), Empty)),
                        Concat(Group(ParsePattern(q).value), Concat(Eol, Empty))))
  {
    var second := "(" + q + ")" + "$";
    LastAlternative(q);
    FirstAlternative(p, second);
    assert ("|" + second)[1..] == second;
    assert ParseAlternatives(second).Some?;
    assert ParseAlternatives(second) == Some(ParseSequence(second).value);
    assert "^" + ("(?:" + p + ")" + ("|" + second)) == Wrapped(p + ")|(" + q);
  }

  /** Why the bare parse matters: joining two patterns with `)|(` gives no pattern, yet wrapping
      that text parses, and accepts every name that ends in a word of the second pattern. */
  lemma WrappingAloneIsNotEnough(p: string, q: string, name: string, i: nat)
    requires ParsePattern(p).Some? && ParsePattern(q).Some? && q != [] && q[0] != '?'
    requires i <= |name| && MatchesAt(ParsePattern(q).value, name, i, |name|)
    ensures CompilePattern(p + ")|(" + q).None?
    ensures ParsePattern(Wrapped(p + ")|(" + q)).Some?
    ensures IsMatch(ParsePattern(Wrapped(p + ")|(" + q)).value, name)
  {
    ExtendAlternatives(p, ")|(" + q);
    assert p + (")|(" + q) == p + ")|(" + q;
    WrappedAlternativesEscape(p, q);
    var right := Concat(Group(ParsePattern(q).value), Concat(Eol, Empty));
    assert MatchesAt(right, name, i, |name|) by {
      assert MatchesAt(Eol, name, |name|, |name|) && MatchesAt(Empty, name, |name|, |name|);
      assert MatchesAt(Concat(Eol, Empty), name, |name|, |name|);
      assert MatchesAt(Group(ParsePattern(q).value), name, i, |name|);
    }
    assert MatchesAt(ParsePattern(Wrapped(p + ")|(" + q)).value, name, i, |name|);
  }
}
