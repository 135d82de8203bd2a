/** bunsan::fnmatcher: translating a glob into a regular expression.

    Both languages are read into the same list of items, by parsers that know nothing of each
    other. The glob is that of section 2.13 of IEEE Std 1003.1-2017 (Shell & Utilities), with `!`
    for negation and no escaping by backslash. Of the regular expressions only those made of
    alphanumeric characters, `.`, `.*`, a backslash before a character that is not alphanumeric,
    and bracketed sets are read. Neither parser gives a meaning to a bracketed set with `[:`, `[.`
    or `[=` inside, or to a range that runs backwards. */
module Fnmatch {
  import opened Common
  import opened Splitting

  datatype Range = Range(lo: char, hi: char)

  datatype Item =
    | One(c: char)
    | AnyChar
    | AnyString
    | Set(negated: bool, ranges: seq<Range>)

  predicate InRanges(ranges: seq<Range>, c: char) {
    exists r :: r in ranges && r.lo <= c <= r.hi
  }

  predicate Accepts(item: Item, c: char) {
    match item
    case One(d) => c == d
    case AnyChar => true
    case AnyString => false
    case Set(negated, ranges) => InRanges(ranges, c) != negated
  }

  /** The strings a list of items stands for. */
  ghost predicate Matches(items: seq<Item>, s: string) {
    if items == [] then s == ""
    else if items[0].AnyString? then exists k :: 0 <= k <= |s| && Matches(items[1..], s[k..])
    else s != "" && Accepts(items[0], s[0]) && Matches(items[1..], s[1..])
  }

  predicate IsAlnum(c: char) {
    '0' <= c <= '9' || 'a' <= c <= 'z' || 'A' <= c <= 'Z'
  }

  predicate OpensClass(c: char) {
    c == ':' || c == '.' || c == '='
  }

  function Prepend(head: seq<Item>, tail: Option<seq<Item>>): Option<seq<Item>> {
    if tail.None? then None else Some(head + tail.value)
  }

  function PrependRange(r: Range, tail: Option<seq<Range>>): Option<seq<Range>> {
    if tail.None? then None else Some([r] + tail.value)
  }

  // ----- globs ----------------------------------------------------------------------------

  /** The first `]` in `p` from `from` on; the length of `p` if there is none. */
  function Close(p: string, from: nat): (k: nat)
    requires from <= |p|
    ensures from <= k <= |p|
    ensures k < |p| ==> p[k] == ']'
    ensures forall i :: from <= i < k ==> p[i] != ']'
    decreases |p| - from
  {
    if from == |p| || p[from] == ']' then from else Close(p, from + 1)
  }

  /** Where a bracket expression that starts `p` ends, if it does: a `]` right after the `[`, or
      after the `!` that follows it, belongs to the set. */
  function BracketEnd(p: string): (k: nat)
    requires p != "" && p[0] == '['
    ensures k <= |p|
    ensures k < |p| ==> p[k] == ']' && k > 1 && (p[1] == '!' ==> k > 2)
  {
    var from := if |p| > 1 && p[1] == '!' then 3 else 2;
    if from <= |p| then Close(p, from) else |p|
  }

  predicate HasClass(body: string) {
    exists i :: 0 <= i < |body| - 1 && body[i] == '[' && OpensClass(body[i + 1])
  }

  /** The ranges of a bracket expression; `None` if one runs backwards. */
  function GlobRanges(body: string): Option<seq<Range>> {
    if body == "" then Some([])
    else if |body| > 2 && body[1] == '-' then
      if body[2] < body[0] then None
      else PrependRange(Range(body[0], body[2]), GlobRanges(body[3..]))
    else PrependRange(Range(body[0], body[0]), GlobRanges(body[1..]))
  }

  /** What a glob means; `None` where this model gives it no meaning. */
  function ParseGlob(p: string): Option<seq<Item>>
    decreases |p|
  {
    if p == "" then Some([])
    else if p[0] == '*' then Prepend([AnyString], ParseGlob(p[1..]))
    else if p[0] == '?' then Prepend([AnyChar], ParseGlob(p[1..]))
    else if p[0] == '[' && BracketEnd(p) < |p| then
      var k := BracketEnd(p);
      var negated := p[1] == '!';
      var body := if negated then p[2..k] else p[1..k];
      var ranges := GlobRanges(body);
      if ranges.None? || HasClass(body) then None else Prepend([Set(negated, ranges.value)], ParseGlob(p[k + 1..]))
    else Prepend([One(p[0])], ParseGlob(p[1..]))
  }

  // ----- regular expressions --------------------------------------------------------------

  datatype Atom = Atom(c: char, plain: bool)

  /** The characters of a set up to the closing bracket, and what follows. */
  function SetAtoms(r: string, first: bool): Option<(seq<Atom>, string)>
    decreases |r|
  {
    if r == "" then None
    else if r[0] == ']' && !first then Some(([], r[1..]))
    else if r[0] == '\\' then
      if |r| < 2 || IsAlnum(r[1]) then None else ConsAtom(Atom(r[1], false), SetAtoms(r[2..], false))
    else ConsAtom(Atom(r[0], true), SetAtoms(r[1..], false))
  }

  function ConsAtom(a: Atom, rest: Option<(seq<Atom>, string)>): Option<(seq<Atom>, string)> {
    if rest.None? then None else Some(([a] + rest.value.0, rest.value.1))
  }

  predicate HasClassAtoms(atoms: seq<Atom>) {
    exists i :: 0 <= i < |atoms| - 1 && atoms[i] == Atom('[', true) && atoms[i + 1].plain && OpensClass(atoms[i + 1].c)
  }

  function SetRanges(atoms: seq<Atom>): Option<seq<Range>> {
    if atoms == [] then Some([])
    else if |atoms| > 2 && atoms[1] == Atom('-', true) then
      if atoms[2].c < atoms[0].c then None
      else PrependRange(Range(atoms[0].c, atoms[2].c), SetRanges(atoms[3..]))
    else PrependRange(Range(atoms[0].c, atoms[0].c), SetRanges(atoms[1..]))
  }

  /** What a regular expression means; `None` outside the dialect. */
  function ParseRegex(r: string): Option<seq<Item>>
    decreases |r|
  {
    if r == "" then Some([])
    else if r[0] == '.' then
      if |r| > 1 && r[1] == '*' then Prepend([AnyString], ParseRegex(r[2..]))
      else Prepend([AnyChar], ParseRegex(r[1..]))
    else if r[0] == '\\' then
      if |r| < 2 || IsAlnum(r[1]) then None else Prepend([One(r[1])], ParseRegex(r[2..]))
    else if r[0] == '[' then
      var negated := |r| > 1 && r[1] == '^';
      var body := if negated then r[2..] else r[1..];
      var set_ := SetAtoms(body, true);
      if set_.None? || |set_.value.1| >= |r| then None
      else
        var ranges := SetRanges(set_.value.0);
        if ranges.None? || HasClassAtoms(set_.value.0) then None
        else Prepend([Set(negated, ranges.value)], ParseRegex(set_.value.1))
    else if IsAlnum(r[0]) then Prepend([One(r[0])], ParseRegex(r[1..]))
    else None
  }

  // ----- the translation ------------------------------------------------------------------

  datatype ParserState = Text | InChoiceFirst | InChoiceSecond | InChoiceAny

  /** One character of plain text. */
  function TextChar(c: char): string {
    if c == '*' then ".*" else if c == '?' then "." else if IsAlnum(c) then [c] else ['\\', c]
  }

  function TextOf(p: string): string {
    if p == "" then "" else TextChar(p[0]) + TextOf(p[1..])
  }

  /** One character of a set that is not the first. */
  function SetChar(c: char): string {
    if c == '\\' then ['\\', c] else [c]
  }

  function SetOf(choice: string): string {
    if choice == "" then "" else SetChar(choice[0]) + SetOf(choice[1..])
  }

  function FirstSetChar(c: char): string {
    if c == '!' then "^" else if c == '^' || c == '\\' then ['\\', c] else [c]
  }

  /** A whole set; `choice` is what stood between the brackets. */
  function Committed(choice: string): string {
    "[" + (if choice == "" then "" else FirstSetChar(choice[0]) + SetOf(choice[1..])) + "]"
  }

  /** A glob whose last `[` has no end leaves the rest to be read as text; a second `[` there would
      clear the very characters being read. */
  predicate Defined(p: string)
    decreases |p|
  {
    if p == "" then true
    else if p[0] == '[' then
      if BracketEnd(p) < |p| then Defined(p[BracketEnd(p) + 1..]) else '[' !in p[1..]
    else Defined(p[1..])
  }

  /** The translation, bracket expression by bracket expression. */
  function Translate(p: string): string
    decreases |p|
  {
    if p == "" then ""
    else if p[0] == '[' then
      var k := BracketEnd(p);
      if k < |p| then Committed(p[1..k]) + Translate(p[k + 1..]) else "\\[" + TextOf(p[1..])
    else TextChar(p[0]) + Translate(p[1..])
  }

  /** The character-by-character parser of the source. */
  class Parser {
    var result: string
    var choice: string
    var state: ParserState

    constructor ()
      ensures result == "" && state == Text
    {
      result, choice, state := "", "", Text;
    }

    /** `parser::operator()`. */
    method Feed(c: char)
      modifies this
      ensures state == NextState(old(state), c)
      ensures old(state).Text? ==>
                result == old(result) + (if c == '[' then "" else TextChar(c)) &&
                choice == if c == '[' then "" else old(choice)
      ensures old(state).InChoiceAny? && c == ']' ==> result == old(result) + Committed(old(choice))
      ensures !old(state).Text? && !(old(state).InChoiceAny? && c == ']') ==>
                result == old(result) && choice == old(choice) + [c]
    {
      match state {
        case Text =>
          if c == '*' {
            result := result + ".*";
          } else if c == '?' {
            result := result + ".";
          } else if c == '[' {
            choice := "";
            state := InChoiceFirst;
          } else {
            if !IsAlnum(c) {
              result := result + ['\\'];
            }
            result := result + [c];
          }
        case InChoiceFirst =>
          choice := choice + [c];
          state := if c == '!' then InChoiceSecond else InChoiceAny;
        case InChoiceSecond =>
          choice := choice + [c];
          state := InChoiceAny;
        case InChoiceAny =>
          if c == ']' {
            result := result + "[";
            CommitChoice();
            result := result + "]";
            state := Text;
          } else {
            choice := choice + [c];
          }
      }
    }

    /** The loop that writes a set out. */
    method CommitChoice()
      modifies this`result
      ensures result == old(result) + if choice == "" then "" else FirstSetChar(choice[0]) + SetOf(choice[1..])
    {
      var chars := choice;
      var first, i := true, 0;
      while i < |chars|
        invariant 0 <= i <= |chars| && (first <==> i == 0)
        invariant i == 0 ==> result == old(result)
        invariant i > 0 ==> result == old(result) + FirstSetChar(chars[0]) + SetOf(chars[1..i])
      {
        var u := chars[i];
        if first {
          if u == '!' {
            result := result + "^";
          } else if u == '^' || u == '\\' {
            result := result + ['\\', u];
          } else {
            result := result + [u];
          }
          first := false;
        } else {
          hide FirstSetChar, SetOf;
          assert chars[1..i + 1] == chars[1..i] + [u];
          SetOfAppend(chars[1..i], u);
          Associate(old(result) + FirstSetChar(chars[0]), SetOf(chars[1..i]), SetChar(u));
          if u == '\\' {
            result := result + ['\\'];
          }
          result := result + [u];
        }
        i := i + 1;
      }
      if chars != "" {
        assert chars[1..] == chars[1..i];
      }
    }

    /** `parser::finish`. What was read since an unclosed `[` goes through the parser again, out of
        the field that the parser clears at a `[`. There is no result if that happens: the loop of
        the source then goes on over a string that was cleared under it, which is undefined. */
    method Finish() returns (r: Option<string>)
      modifies this
      ensures r.None? <==> !old(state).Text? && '[' in old(choice)
      ensures r.Some? ==> r.value == result
      ensures r.Some? ==> result == old(result) + if old(state).Text? then "" else "\\[" + TextOf(old(choice))
    {
      if state != Text {
        result := result + "\\[";
        state := Text;
        ghost var tail, before := choice, result;
        var size, i := |choice|, 0;
        while i < size
          invariant 0 <= i <= size == |tail| && state.Text? && choice == tail && '[' !in tail[..i]
          invariant result == before + TextOf(tail[..i])
        {
          hide TextOf, TextChar, Committed;
          TextOfAppend(tail[..i], tail[i]);
          assert tail[..i + 1] == tail[..i] + [tail[i]];
          Associate(before, TextOf(tail[..i]), TextChar(tail[i]));
          Feed(choice[i]);
          if |choice| != size {
            return None;
          }
          i := i + 1;
        }
        assert tail[..i] == tail;
        Associate(old(result), "\\[", TextOf(tail));
      }
      r := Some(result);
    }
  }

  function NextState(state: ParserState, c: char): ParserState {
    match state
    case Text => if c == '[' then InChoiceFirst else Text
    case InChoiceFirst => if c == '!' then InChoiceSecond else InChoiceAny
    case InChoiceSecond => InChoiceAny
    case InChoiceAny => if c == ']' then Text else InChoiceAny
  }

  lemma {:induction false} SetOfAppend(a: string, c: char)
    ensures SetOf(a + [c]) == SetOf(a) + SetChar(c)
  {
    if a != "" {
      SetOfAppend(a[1..], c);
      assert (a + [c])[1..] == a[1..] + [c];
    }
  }

  lemma {:induction false} TextOfAppend(a: string, c: char)
    ensures TextOf(a + [c]) == TextOf(a) + TextChar(c)
  {
    if a != "" {
      TextOfAppend(a[1..], c);
      assert (a + [c])[1..] == a[1..] + [c];
    }
  }

  /** `fnmatcher::translate_to_regex`: it has a result exactly for the defined patterns. */
  method TranslateToRegex(pattern: string) returns (r: Option<string>)
    ensures r.Some? <==> Defined(pattern)
    ensures r.Some? ==> r.value == Translate(pattern)
  {
    hide Translate, Defined, Inside, TextOf, TextChar, Committed;
    var p := new Parser();
    var i := 0;
    // where the bracket expression being read began, or where the text goes on
    ghost var from := 0;
    while i < |pattern|
      invariant 0 <= from <= i <= |pattern|
      invariant p.state.Text? ==> from == i
      invariant !p.state.Text? ==> from < i && pattern[from] == '[' && p.choice == pattern[from + 1..i]
      invariant !p.state.Text? ==> Inside(pattern[from..], i - from, p.state)
      invariant Translate(pattern) == p.result + Translate(pattern[from..])
      invariant Defined(pattern[from..]) == Defined(pattern)
    {
      var c := pattern[i];
      ghost var rest := pattern[from..];
      assert rest[i - from] == c;
      if p.state.Text? {
        assert rest[1..] == pattern[i + 1..];
        TextStep(rest);
        if c != '[' {
          from := i + 1;
        }
      } else if p.state.InChoiceAny? && c == ']' {
        BracketStep(rest, i - from);
        assert rest[1..i - from] == pattern[from + 1..i];
        assert rest[i - from + 1..] == pattern[i + 1..];
        from := i + 1;
      } else {
        assert p.choice + [c] == pattern[from + 1..i + 1];
        InsideStep(rest, i - from, p.state);
      }
      p.Feed(c);
      i := i + 1;
    }
    if !p.state.Text? {
      ghost var rest := pattern[from..];
      OpenEnd(rest, p.state);
      assert rest[1..] == p.choice;
    } else {
      assert pattern[from..] == "";
      NothingLeft();
    }
    r := p.Finish();
  }

  /** The shortest pattern on which the source is undefined. */
  lemma UndefinedPattern()
    ensures !Defined("[[") && forall p: string :: |p| < 2 ==> Defined(p)
  {
    assert "[["[1..] == "[";
  }

  lemma NothingLeft()
    ensures Translate("") == "" && Defined("")
  {
  }

  lemma TextStep(p: string)
    requires p != ""
    ensures p[0] != '[' ==> Translate(p) == TextChar(p[0]) + Translate(p[1..]) && Defined(p) == Defined(p[1..])
    ensures p[0] == '[' ==> Inside(p, 1, InChoiceFirst)
  {
  }

  lemma BracketStep(p: string, n: nat)
    requires n < |p| && Inside(p, n, InChoiceAny) && p[n] == ']'
    ensures Translate(p) == Committed(p[1..n]) + Translate(p[n + 1..]) && Defined(p) == Defined(p[n + 1..])
  {
    assert BracketEnd(p) == n;
  }

  lemma InsideStep(p: string, n: nat, state: ParserState)
    requires n < |p| && Inside(p, n, state) && !(state.InChoiceAny? && p[n] == ']')
    ensures Inside(p, n + 1, NextState(state, p[n]))
  {
  }

  lemma OpenEnd(p: string, state: ParserState)
    requires Inside(p, |p|, state)
    ensures Translate(p) == "\\[" + TextOf(p[1..])
    ensures Defined(p) <==> '[' !in p[1..]
  {
    assert BracketEnd(p) == |p|;
  }

  /** After `n` characters of `p`, the bracket expression that starts it is still open. */
  ghost predicate Inside(p: string, n: nat, state: ParserState) {
    0 < n <= |p| && p[0] == '[' &&
    (state.InChoiceFirst? <==> n == 1) &&
    (state.InChoiceSecond? <==> n == 2 && p[1] == '!') &&
    (state.InChoiceAny? ==> forall i :: (if p[1] == '!' then 3 else 2) <= i < n ==> p[i] != ']') &&
    !state.Text?
  }

  // ----- the translation means the same ---------------------------------------------------

  /** What a character outside brackets stands for. */
  function TextItem(c: char): Item {
    if c == '*' then AnyString else if c == '?' then AnyChar else One(c)
  }

  predicate StarFree(r: string) {
    r == "" || r[0] != '*'
  }

  lemma ParseTextChar(c: char, rest: string)
    requires StarFree(rest)
    ensures ParseRegex(TextChar(c) + rest) == Prepend([TextItem(c)], ParseRegex(rest))
  {
    var r := TextChar(c) + rest;
    assert r[|TextChar(c)|..] == rest;
  }

  lemma NoLeadingStar(p: string)
    ensures StarFree(Translate(p)) && StarFree(TextOf(p))
  {
  }

  lemma {:induction false} TextParses(p: string)
    requires '[' !in p
    ensures ParseRegex(TextOf(p)) == ParseGlob(p)
  {
    if p != "" {
      NoLeadingStar(p[1..]);
      ParseTextChar(p[0], TextOf(p[1..]));
      TextParses(p[1..]);
    }
  }

  /** The atoms that stand for the characters of a set: the first may be escaped for being `^`. */
  ghost predicate AtomsFor(atoms: seq<Atom>, body: string) {
    |atoms| == |body| &&
    forall i :: 0 <= i < |body| ==>
      atoms[i].c == body[i] && (atoms[i].plain || body[i] == '\\' || body[i] == '^')
  }

  lemma {:induction false} RangesAgree(atoms: seq<Atom>, body: string)
    requires AtomsFor(atoms, body)
    ensures SetRanges(atoms) == GlobRanges(body)
  {
    if body != "" {
      if |body| > 2 && body[1] == '-' {
        RangesAgree(atoms[3..], body[3..]);
      } else {
        RangesAgree(atoms[1..], body[1..]);
      }
    }
  }

  lemma ClassesAgree(atoms: seq<Atom>, body: string)
    requires AtomsFor(atoms, body)
    ensures HasClassAtoms(atoms) <==> HasClass(body)
  {
    forall i | 0 <= i < |body|
      ensures atoms[i] == Atom('[', true) <==> body[i] == '['
      ensures OpensClass(body[i]) ==> atoms[i].plain && atoms[i].c == body[i]
    {
    }
  }

  function AtomsOf(chars: string): seq<Atom> {
    if chars == "" then [] else [Atom(chars[0], chars[0] != '\\')] + AtomsOf(chars[1..])
  }

  lemma {:induction false} AtomsOfFor(chars: string)
    ensures AtomsFor(AtomsOf(chars), chars)
  {
    if chars != "" {
      AtomsOfFor(chars[1..]);
    }
  }

  lemma AtomsForFirst(atom: Atom, body: string)
    requires body != "" && atom.c == body[0] && (atom.plain || body[0] == '\\' || body[0] == '^')
    ensures AtomsFor([atom] + AtomsOf(body[1..]), body)
  {
    AtomsOfFor(body[1..]);
    hide AtomsOf;
    forall i | 1 <= i < |body|
      ensures ([atom] + AtomsOf(body[1..]))[i] == AtomsOf(body[1..])[i - 1] && body[i] == body[1..][i - 1]
    {
    }
  }

  /** Reading back the characters of a set after the first. */
  lemma {:induction false} ReadSet(chars: string, rest: string)
    requires ']' !in chars
    ensures SetAtoms(SetOf(chars) + "]" + rest, false) == Some((AtomsOf(chars), rest))
  {
    var r := SetOf(chars) + "]" + rest;
    if chars == "" {
      assert r[1..] == rest;
    } else {
      ReadSet(chars[1..], rest);
      assert r[|SetChar(chars[0])|..] == SetOf(chars[1..]) + "]" + rest;
    }
  }

  /** Reading back a set whose first character is allowed to be `]`. */
  lemma ReadWholeSet(c: char, chars: string, first: string, atom: Atom, rest: string)
    requires ']' !in chars
    requires (first == [c] && c != '\\' && atom == Atom(c, true)) ||
             (first == ['\\', c] && !IsAlnum(c) && atom == Atom(c, false))
    ensures SetAtoms(first + SetOf(chars) + "]" + rest, true) == Some(([atom] + AtomsOf(chars), rest))
  {
    var r := first + SetOf(chars) + "]" + rest;
    ReadSet(chars, rest);
    assert r[|first|..] == SetOf(chars) + "]" + rest;
  }

  /** A set and what follows it, read back from the regular expression. */
  lemma ParseSet(choice: string, rest: string)
    requires choice != "" && (choice[0] == '!' ==> |choice| > 1)
    requires forall i :: (if choice[0] == '!' then 2 else 1) <= i < |choice| ==> choice[i] != ']'
    ensures var body := if choice[0] == '!' then choice[1..] else choice;
            var ranges := GlobRanges(body);
            ParseRegex(Committed(choice) + rest) ==
              if ranges.None? || HasClass(body) then None
              else Prepend([Set(choice[0] == '!', ranges.value)], ParseRegex(rest))
  {
    var negated := choice[0] == '!';
    var body := if negated then choice[1..] else choice;
    var c, chars := body[0], body[1..];
    var first := if negated then SetChar(c) else FirstSetChar(c);
    var atoms := [Atom(c, first == [c])] + AtomsOf(chars);
    var text := first + SetOf(chars) + "]" + rest;
    CommittedText(choice, rest);
    hide Committed, SetAtoms, SetRanges, GlobRanges, HasClass, HasClassAtoms, SetOf;
    ReadWholeSet(c, chars, first, atoms[0], rest);
    AtomsForFirst(atoms[0], body);
    hide AtomsFor, AtomsOf;
    RangesAgree(atoms, body);
    ClassesAgree(atoms, body);
    ParseBracket(Committed(choice) + rest, negated, text, atoms, rest);
  }

  lemma CommittedText(choice: string, rest: string)
    requires choice != "" && (choice[0] == '!' ==> |choice| > 1)
    ensures var body := if choice[0] == '!' then choice[1..] else choice;
            Committed(choice) + rest ==
              if choice[0] == '!' then "[^" + (SetChar(body[0]) + SetOf(body[1..]) + "]" + rest)
              else "[" + (FirstSetChar(body[0]) + SetOf(body[1..]) + "]" + rest)
  {
    if choice[0] == '!' {
      var body := choice[1..];
      assert SetOf(body) == SetChar(body[0]) + SetOf(body[1..]);
    }
  }

  lemma ParseBracket(r: string, negated: bool, text: string, atoms: seq<Atom>, rest: string)
    requires r == if negated then "[^" + text else "[" + text
    requires text != "" && (!negated ==> text[0] != '^') && |rest| < |text|
    requires SetAtoms(text, true) == Some((atoms, rest))
    ensures ParseRegex(r) ==
              if SetRanges(atoms).None? || HasClassAtoms(atoms) then None
              else Prepend([Set(negated, SetRanges(atoms).value)], ParseRegex(rest))
  {
    hide SetRanges, HasClassAtoms, SetAtoms;
    assert r[(if negated then 2 else 1)..] == text;
  }

  /** The regular expression reads back as exactly what the glob means, and it is malformed
      exactly when the glob has a meaningless bracket expression. */
  lemma {:induction false} TranslationIsFaithful(p: string)
    requires Defined(p)
    ensures ParseRegex(Translate(p)) == ParseGlob(p)
    decreases |p|
  {
    if p == "" {
    } else if p[0] == '[' {
      var k := BracketEnd(p);
      if k < |p| {
        TranslationIsFaithful(p[k + 1..]);
        var choice := p[1..k];
        ParseSet(choice, Translate(p[k + 1..]));
        assert choice[1..] == p[2..k];
      } else {
        TextParses(p[1..]);
        NoLeadingStar(p[1..]);
        ParseTextChar('[', TextOf(p[1..]));
      }
    } else {
      TranslationIsFaithful(p[1..]);
      NoLeadingStar(p[1..]);
      ParseTextChar(p[0], Translate(p[1..]));
    }
  }

  ghost predicate GlobAccepts(p: string, s: string) {
    ParseGlob(p).Some? && Matches(ParseGlob(p).value, s)
  }

  ghost predicate RegexAccepts(r: string, s: string) {
    ParseRegex(r).Some? && Matches(ParseRegex(r).value, s)
  }

  /** The emitted regular expression accepts a string exactly when the glob does. */
  lemma SameLanguage(p: string, s: string)
    requires Defined(p)
    ensures RegexAccepts(Translate(p), s) <==> GlobAccepts(p, s)
  {
    TranslationIsFaithful(p);
  }

  // ----- what the two languages mean ------------------------------------------------------

  /** One character of a pattern outside brackets, followed by the rest of the pattern. */
  lemma GlobText(c: char, p: string, s: string)
    ensures GlobAccepts("", s) <==> s == ""
    ensures GlobAccepts("*" + p, s) <==> exists k :: 0 <= k <= |s| && GlobAccepts(p, s[k..])
    ensures GlobAccepts("?" + p, s) <==> s != "" && GlobAccepts(p, s[1..])
    ensures c !in "*?[" ==> (GlobAccepts([c] + p, s) <==> s != "" && s[0] == c && GlobAccepts(p, s[1..]))
  {
    assert ("*" + p)[1..] == p && ("?" + p)[1..] == p && ([c] + p)[1..] == p;
    if ParseGlob(p).Some? {
      var items := ParseGlob(p).value;
      ItemFirst(AnyString, items, s);
      ItemFirst(AnyChar, items, s);
      ItemFirst(One(c), items, s);
    }
    hide Matches;
  }

  lemma ItemFirst(item: Item, items: seq<Item>, s: string)
    ensures Matches([item] + items, s) <==>
              if item.AnyString? then exists k :: 0 <= k <= |s| && Matches(items, s[k..])
              else s != "" && Accepts(item, s[0]) && Matches(items, s[1..])
  {
    assert ([item] + items)[1..] == items;
  }

  /** Members of a set that are all meant singly: no range, no class. */
  predicate Singles(body: string) {
    body != "" && '-' !in body && '[' !in body
  }

  lemma {:induction false} SinglesMean(body: string, c: char)
    requires '-' !in body
    ensures GlobRanges(body).Some? && (InRanges(GlobRanges(body).value, c) <==> c in body)
  {
    if body != "" {
      SinglesMean(body[1..], c);
      var rest := GlobRanges(body[1..]).value;
      assert GlobRanges(body).value == [Range(body[0], body[0])] + rest;
      InMoreRanges(Range(body[0], body[0]), rest, c);
      assert body == [body[0]] + body[1..];
    }
  }

  lemma InMoreRanges(r: Range, ranges: seq<Range>, c: char)
    ensures InRanges([r] + ranges, c) <==> r.lo <= c <= r.hi || InRanges(ranges, c)
  {
    assert r in [r] + ranges;
    forall q | q in ranges
      ensures q in [r] + ranges
    {
    }
  }

  lemma BracketParses(glob: string, front: string, body: string, p: string)
    requires front == "[" || front == "[!"
    requires glob == front + body + "]" + p && body != "" && (front == "[" ==> body[0] != '!') && ']' !in body[1..]
    ensures ParseGlob(glob) ==
              if GlobRanges(body).None? || HasClass(body) then None
              else Prepend([Set(front == "[!", GlobRanges(body).value)], ParseGlob(p))
  {
    var k := |front| + |body|;
    assert |glob| == k + 1 + |p| && glob[k] == ']';
    assert glob[|front|..k] == body;
    assert glob[k + 1..] == p;
    assert forall i :: |front| < i < k ==> glob[i] == body[1..][i - |front| - 1];
    assert BracketEnd(glob) == k;
    hide GlobRanges, HasClass;
  }

  /** What a glob that starts with a bracket expression means, given what is between the brackets. */
  lemma GlobBracket(body: string, negated: bool, p: string, s: string)
    requires body != "" && (!negated ==> body[0] != '!') && ']' !in body[1..]
    ensures GlobAccepts((if negated then "[!" else "[") + body + "]" + p, s) <==>
              !HasClass(body) && GlobRanges(body).Some? &&
              s != "" && InRanges(GlobRanges(body).value, s[0]) != negated && GlobAccepts(p, s[1..])
  {
    var front := if negated then "[!" else "[";
    BracketParses(front + body + "]" + p, front, body, p);
    hide ParseGlob, Matches, GlobRanges, HasClass;
    if ParseGlob(p).Some? && GlobRanges(body).Some? {
      ItemFirst(Set(negated, GlobRanges(body).value), ParseGlob(p).value, s);
    }
  }

  /** Brackets inside brackets that would name a class. */
  lemma ClassMeans(body: string)
    ensures HasClass(body) <==> exists i :: 0 <= i < |body| - 1 && body[i] == '[' && body[i + 1] in ":.="
  {
  }

  /** A set accepts one character that is in it, or that is not when it is negated. */
  lemma GlobSet(body: string, negated: bool, p: string, s: string)
    requires Singles(body) && (!negated ==> body[0] != '!') && ']' !in body[1..]
    ensures GlobAccepts((if negated then "[!" else "[") + body + "]" + p, s) <==>
              s != "" && (s[0] in body) != negated && GlobAccepts(p, s[1..])
  {
    GlobBracket(body, negated, p, s);
    if s != "" {
      SinglesMean(body, s[0]);
    }
    SinglesMean(body, ' ');
    assert !HasClass(body);
    hide GlobAccepts, GlobRanges;
  }

  /** A range accepts what lies between its ends, and backwards means nothing. */
  lemma GlobRange(lo: char, hi: char, negated: bool, p: string, s: string)
    requires hi != ']' && lo != '[' && (!negated ==> lo != '!')
    ensures GlobAccepts((if negated then "[!" else "[") + [lo, '-', hi] + "]" + p, s) <==>
              lo <= hi && s != "" && (lo <= s[0] <= hi) != negated && GlobAccepts(p, s[1..])
  {
    var body := [lo, '-', hi];
    GlobBracket(body, negated, p, s);
    assert body[3..] == "";
    if lo <= hi {
      assert [Range(lo, hi)] + [] == [Range(lo, hi)];
      assert GlobRanges(body) == Some([Range(lo, hi)]);
      if s != "" {
        InMoreRanges(Range(lo, hi), [], s[0]);
      }
    }
    hide GlobAccepts, InRanges;
  }

  /** A bracket that nothing closes stands for itself. */
  lemma GlobOpenBracket(p: string, s: string)
    requires var first := if p != "" && p[0] == '!' then 2 else 1;
             forall i :: first <= i < |p| ==> p[i] != ']'
    ensures GlobAccepts("[" + p, s) <==> s != "" && s[0] == '[' && GlobAccepts(p, s[1..])
  {
    var glob := "[" + p;
    assert glob[1..] == p && forall i :: 0 < i < |glob| ==> glob[i] == p[i - 1];
    assert BracketEnd(glob) == |glob|;
    if ParseGlob(p).Some? {
      ItemFirst(One('['), ParseGlob(p).value, s);
    }
    hide Matches;
  }

  /** The same for regular expressions: text, `.`, `.*` and escapes. */
  lemma RegexText(c: char, r: string, s: string)
    ensures RegexAccepts("", s) <==> s == ""
    ensures RegexAccepts(".*" + r, s) <==> exists k :: 0 <= k <= |s| && RegexAccepts(r, s[k..])
    ensures StarFree(r) ==> (RegexAccepts("." + r, s) <==> s != "" && RegexAccepts(r, s[1..]))
    ensures if '0' <= c <= '9' || 'a' <= c <= 'z' || 'A' <= c <= 'Z' then
              (RegexAccepts([c] + r, s) <==> s != "" && s[0] == c && RegexAccepts(r, s[1..])) &&
              ParseRegex(['\\', c] + r).None?
            else RegexAccepts(['\\', c] + r, s) <==> s != "" && s[0] == c && RegexAccepts(r, s[1..])
  {
    assert (".*" + r)[2..] == r && ("." + r)[1..] == r && ([c] + r)[1..] == r && (['\\', c] + r)[2..] == r;
    if ParseRegex(r).Some? {
      var items := ParseRegex(r).value;
      ItemFirst(AnyString, items, s);
      ItemFirst(AnyChar, items, s);
      ItemFirst(One(c), items, s);
    }
    hide Matches;
  }

  /** A set of single characters, the first of them plain or escaped. */
  lemma RegexSet(first: string, c: char, chars: string, negated: bool, r: string, s: string)
    requires Singles([c] + chars) && ']' !in chars && '\\' !in chars
    requires (first == [c] && c != '\\' && (!negated ==> c != '^')) || (first == ['\\', c] && c in "\\^")
    ensures RegexAccepts((if negated then "[^" else "[") + (first + chars + "]" + r), s) <==>
              s != "" && (s[0] in [c] + chars) != negated && RegexAccepts(r, s[1..])
  {
    var body, atom, text := [c] + chars, Atom(c, first == [c]), first + chars + "]" + r;
    assert body[1..] == chars;
    SetOfPlain(chars);
    ReadWholeSet(c, chars, first, atom, r);
    hide SetAtoms, SetOf, SetRanges, HasClassAtoms, GlobRanges, Matches, InRanges, ParseRegex;
    if s != "" {
      SinglesMean(body, s[0]);
    }
    SinglesMean(body, ' ');
    assert !HasClass(body);
    hide HasClass;
    RegexSetParses((if negated then "[^" else "[") + text, negated, text, atom, body, r);
    if ParseRegex(r).Some? {
      ItemFirst(Set(negated, GlobRanges(body).value), ParseRegex(r).value, s);
    }
  }

  lemma RegexSetParses(regex: string, negated: bool, text: string, atom: Atom, body: string, r: string)
    requires regex == (if negated then "[^" else "[") + text
    requires text != "" && (!negated ==> text[0] != '^') && |r| < |text|
    requires body != "" && atom.c == body[0] && (atom.plain || body[0] == '\\' || body[0] == '^')
    requires SetAtoms(text, true) == Some(([atom] + AtomsOf(body[1..]), r))
    ensures ParseRegex(regex) ==
              if GlobRanges(body).None? || HasClass(body) then None
              else Prepend([Set(negated, GlobRanges(body).value)], ParseRegex(r))
  {
    var atoms := [atom] + AtomsOf(body[1..]);
    AtomsForFirst(atom, body);
    RangesAgree(atoms, body);
    ClassesAgree(atoms, body);
    hide SetAtoms, AtomsFor, AtomsOf, SetRanges, HasClassAtoms, HasClass, GlobRanges, ParseRegex;
    ParseBracket(regex, negated, text, atoms, r);
  }

  lemma {:induction false} SetOfPlain(chars: string)
    requires '\\' !in chars
    ensures SetOf(chars) == chars
  {
    if chars != "" {
      SetOfPlain(chars[1..]);
    }
  }
}
