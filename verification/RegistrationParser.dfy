/** Splitting the arguments of a registration macro at its top-level commas. */
module RegistrationParser {
  import opened Options

  predicate IsSpace(c: char) {
    c in {' ', '\t', '\n', '\r', '\U{000B}', '\U{000C}'}
  }

  /** The blank and the control characters from tab to carriage return. */
  lemma SpacesAre(c: char)
    ensures IsSpace(c) <==> c == ' ' || '\t' <= c <= '\r'
  {
  }

  function TrimFront(s: string): (r: string)
    ensures r != [] ==> !IsSpace(r[0])
    ensures |r| <= |s|
  {
    if s == [] || !IsSpace(s[0]) then s else TrimFront(s[1..])
  }

  function TrimBack(s: string): (r: string)
    ensures r != [] ==> !IsSpace(r[|r| - 1])
    ensures r <= s
  {
    if s == [] || !IsSpace(s[|s| - 1]) then s else TrimBack(s[..|s| - 1])
  }

  function Trim(s: string): string {
    TrimBack(TrimFront(s))
  }

  // --- brackets ---------------------------------------------------------------------------------------

  /** The stack of closing brackets still expected, innermost last. A wrong one is an error. */
  function Feed(stack: seq<char>, c: char): Option<seq<char>> {
    if c == '(' then Some(stack + [')'])
    else if c == '[' then Some(stack + [']'])
    else if c == ')' || c == ']' then
      if stack == [] || stack[|stack| - 1] != c then None else Some(stack[..|stack| - 1])
    else Some(stack)
  }

  function Scan(stack: seq<char>, s: string): Option<seq<char>>
    decreases |s|
  {
    if s == [] then Some(stack)
    else match Feed(stack, s[0])
         case None => None
         case Some(next) => Scan(next, s[1..])
  }

  predicate Balanced(s: string) {
    Scan([], s) == Some([])
  }

  /** The commas outside all brackets, when scanning starts inside these. */
  function TopCommas(stack: seq<char>, s: string): nat
    decreases |s|
  {
    if s == [] then 0
    else if s[0] == ',' && stack == [] then 1 + TopCommas([], s[1..])
    else match Feed(stack, s[0])
         case None => 0
         case Some(next) => TopCommas(next, s[1..])
  }

  // --- splitting --------------------------------------------------------------------------------------

  function SplitFrom(stack: seq<char>, current: string, s: string): Option<seq<string>>
    decreases |s|
  {
    if s == [] then if stack == [] then Some([Trim(current)]) else None
    else if s[0] == ',' && stack == [] then
      match SplitFrom([], "", s[1..])
      case None => None
      case Some(tokens) => Some([Trim(current)] + tokens)
    else match Feed(stack, s[0])
         case None => None
         case Some(next) => SplitFrom(next, current + [s[0]], s[1..])
  }

  function Split(input: string): Option<seq<string>> {
    SplitFrom([], "", Trim(input))
  }

  function Prepend(tokens: seq<string>, rest: Option<seq<string>>): Option<seq<string>> {
    match rest case None => None case Some(more) => Some(tokens + more)
  }

  method SplitTopLevelCommaSeparatedValues(text: string) returns (r: Option<seq<string>>)
    ensures r == Split(text)
  {
    hide SplitFrom, Trim;
    var tokens: seq<string>, stack: seq<char>, start: nat := [], [], 0;
    var input := Trim(text);
    var i := 0;
    assert input[0..] == input && input[0..0] == "";
    PrependNothing(Split(text));
    while i < |input|
      invariant 0 <= start <= i <= |input|
      invariant Split(text) == Prepend(tokens, SplitFrom(stack, input[start..i], input[i..]))
    {
      var c := input[i];
      NextChar(stack, input, start, i);
      if c == '(' || c == '[' {
        stack := stack + [if c == '(' then ')' else ']'];
      } else if c == ')' || c == ']' {
        if stack == [] || stack[|stack| - 1] != c { return None; }
        stack := stack[..|stack| - 1];
      } else if c == ',' && stack == [] {
        PrependOneMore(tokens, Trim(input[start..i]), SplitFrom([], "", input[i + 1..]));
        tokens := tokens + [Trim(input[start..i])];
        start := i + 1;
        assert input[start..i + 1] == "";
      }
      i := i + 1;
    }
    if stack != [] {
      StillOpen(stack, input[start..i], input[i..]);
      return None;
    }
    assert input[i..] == [] && input[start..i] == input[start..];
    AtEnd(input[start..]);
    r := Some(tokens + [Trim(input[start..])]);
  }

  /** What the next character does to the rest of the splitting. */
  lemma NextChar(stack: seq<char>, input: string, start: nat, i: nat)
    requires start <= i < |input|
    ensures SplitFrom(stack, input[start..i], input[i..])
            == if input[i] == ',' && stack == []
               then Prepend([Trim(input[start..i])], SplitFrom([], "", input[i + 1..]))
               else match Feed(stack, input[i])
                    case None => None
                    case Some(next) => SplitFrom(next, input[start..i + 1], input[i + 1..])
  {
    hide SplitFrom, Trim, Prepend;
    assert input[i..] == [input[i]] + input[i + 1..] && input[start..i] + [input[i]] == input[start..i + 1];
    OneStep(stack, input[start..i], input[i], input[i + 1..]);
  }

  lemma OneStep(stack: seq<char>, current: string, c: char, rest: string)
    ensures SplitFrom(stack, current, [c] + rest)
            == if c == ',' && stack == [] then Prepend([Trim(current)], SplitFrom([], "", rest))
               else match Feed(stack, c)
                    case None => None
                    case Some(next) => SplitFrom(next, current + [c], rest)
  {
    hide Trim;
    assert ([c] + rest)[1..] == rest && ([c] + rest)[0] == c;
  }

  lemma StillOpen(stack: seq<char>, current: string, rest: string)
    requires stack != [] && rest == ""
    ensures SplitFrom(stack, current, rest) == None
  {
  }

  lemma PrependOneMore(tokens: seq<string>, token: string, rest: Option<seq<string>>)
    ensures Prepend(tokens, Prepend([token], rest)) == Prepend(tokens + [token], rest)
  {
    if rest.Some? { assert tokens + ([token] + rest.value) == tokens + [token] + rest.value; }
  }

  lemma PrependNothing(rest: Option<seq<string>>)
    ensures Prepend([], rest) == rest
  {
    if rest.Some? { assert [] + rest.value == rest.value; }
  }

  // --- what splitting means -----------------------------------------------------------------------------

  lemma {:induction false} ScanConcat(stack: seq<char>, a: string, b: string)
    ensures Scan(stack, a + b) == match Scan(stack, a) case None => None case Some(next) => Scan(next, b)
    decreases |a|
  {
    if a == [] {
      assert a + b == b;
    } else {
      assert (a + b)[1..] == a[1..] + b;
      if Feed(stack, a[0]).Some? { ScanConcat(Feed(stack, a[0]).value, a[1..], b); }
    }
  }

  lemma {:induction false} CommasConcat(stack: seq<char>, a: string, b: string)
    requires Scan(stack, a).Some?
    ensures TopCommas(stack, a + b) == TopCommas(stack, a) + TopCommas(Scan(stack, a).value, b)
    decreases |a|
  {
    if a == [] {
      assert a + b == b;
    } else {
      assert (a + b)[1..] == a[1..] + b;
      CommasConcat(Feed(stack, a[0]).value, a[1..], b);
    }
  }

  /** White space at either end matters neither to brackets nor to commas. */
  lemma {:induction false} FrontIgnored(stack: seq<char>, s: string)
    ensures Scan(stack, TrimFront(s)) == Scan(stack, s) && TopCommas(stack, TrimFront(s)) == TopCommas(stack, s)
  {
    if s != [] && IsSpace(s[0]) { FrontIgnored(stack, s[1..]); }
  }

  lemma {:induction false} BackIgnored(stack: seq<char>, s: string)
    ensures Scan(stack, TrimBack(s)) == Scan(stack, s) && TopCommas(stack, TrimBack(s)) == TopCommas(stack, s)
  {
    if s != [] && IsSpace(s[|s| - 1]) {
      var front, c := s[..|s| - 1], s[|s| - 1];
      BackIgnored(stack, front);
      assert s == front + [c];
      ScanConcat(stack, front, [c]);
      SpaceIgnored(stack, front, c);
    }
  }

  lemma {:induction false} SpaceIgnored(stack: seq<char>, front: string, c: char)
    requires IsSpace(c)
    ensures Scan(stack, front + [c]) == Scan(stack, front) && TopCommas(stack, front + [c]) == TopCommas(stack, front)
    decreases |front|
  {
    if front == [] {
      assert front + [c] == [c] && [c][1..] == [];
    } else {
      assert (front + [c])[1..] == front[1..] + [c];
      if Feed(stack, front[0]).Some? { SpaceIgnored(Feed(stack, front[0]).value, front[1..], c); }
    }
  }

  lemma TrimIgnored(stack: seq<char>, s: string)
    ensures Scan(stack, Trim(s)) == Scan(stack, s) && TopCommas(stack, Trim(s)) == TopCommas(stack, s)
  {
    FrontIgnored(stack, s);
    BackIgnored(stack, TrimFront(s));
  }

  lemma {:induction false} TrimBackKeepsFront(s: string)
    requires s != [] && !IsSpace(s[0])
    ensures TrimBack(s) != [] && TrimBack(s)[0] == s[0]
  {
    if |s| > 1 && IsSpace(s[|s| - 1]) { TrimBackKeepsFront(s[..|s| - 1]); }
  }

  lemma TrimTwice(s: string)
    ensures Trim(Trim(s)) == Trim(s)
  {
    var f := TrimFront(s);
    if f != [] { TrimBackKeepsFront(f); }
  }

  /** A token that stands for itself: no white space around it, balanced, and no comma outside brackets. */
  predicate Token(t: string) {
    Trim(t) == t && Balanced(t) && TopCommas([], t) == 0
  }

  /** Whatever has been read of a token so far is one, once the open brackets are closed. */
  lemma {:induction false} SplitSound(stack: seq<char>, current: string, s: string)
    requires Scan([], current) == Some(stack) && TopCommas([], current) == 0
    ensures SplitFrom(stack, current, s).Some? <==> Scan(stack, s) == Some([])
    ensures SplitFrom(stack, current, s).Some? ==>
              && |SplitFrom(stack, current, s).value| == TopCommas(stack, s) + 1
              && forall t :: t in SplitFrom(stack, current, s).value ==> Token(t)
    decreases |s|
  {
    if s == [] {
      if stack == [] { TrimmedToken(current); }
    } else if s[0] == ',' && stack == [] {
      SplitSound([], "", s[1..]);
      TrimmedToken(current);
    } else if Feed(stack, s[0]).Some? {
      OneMoreChar(stack, current, s[0]);
      SplitSound(Feed(stack, s[0]).value, current + [s[0]], s[1..]);
    }
  }

  lemma TrimmedToken(current: string)
    requires Scan([], current) == Some([]) && TopCommas([], current) == 0
    ensures Token(Trim(current))
  {
    TrimIgnored([], current);
    TrimTwice(current);
  }

  lemma OneMoreChar(stack: seq<char>, current: string, c: char)
    requires Scan([], current) == Some(stack) && TopCommas([], current) == 0 && Feed(stack, c).Some?
    requires !(c == ',' && stack == [])
    ensures Scan([], current + [c]) == Feed(stack, c) && TopCommas([], current + [c]) == 0
  {
    ScanConcat([], current, [c]);
    CommasConcat([], current, [c]);
    assert [c][1..] == [];
  }

  /** Splitting fails exactly on unbalanced input. Otherwise it gives one token more than there are
      top-level commas, and every token is trimmed, balanced and free of top-level commas. */
  lemma SplitMeaning(input: string)
    ensures Split(input).Some? <==> Balanced(input)
    ensures Split(input).Some?
            ==> |Split(input).value| == TopCommas([], input) + 1 && forall t :: t in Split(input).value ==> Token(t)
  {
    TrimIgnored([], input);
    SplitSound([], "", Trim(input));
  }

  // --- round trip ---------------------------------------------------------------------------------------

  function Join(tokens: seq<string>): string
    requires tokens != []
  {
    if |tokens| == 1 then tokens[0] else tokens[0] + "," + Join(tokens[1..])
  }

  lemma {:induction false} TokenPasses(stack: seq<char>, current: string, t: string, rest: string)
    requires Scan(stack, t).Some? && TopCommas(stack, t) == 0
    ensures SplitFrom(stack, current, t + rest) == SplitFrom(Scan(stack, t).value, current + t, rest)
    decreases |t|
  {
    if t == [] {
      assert t + rest == rest && current + t == current;
    } else {
      assert (t + rest)[1..] == t[1..] + rest && current + [t[0]] + t[1..] == current + t;
      TokenPasses(Feed(stack, t[0]).value, current + [t[0]], t[1..], rest);
    }
  }

  lemma AtEnd(current: string)
    ensures SplitFrom([], current, "") == Some([Trim(current)])
  {
  }

  lemma AtComma(current: string, rest: string)
    ensures SplitFrom([], current, "," + rest) == Prepend([Trim(current)], SplitFrom([], "", rest))
  {
    assert ("," + rest)[1..] == rest;
  }

  lemma {:induction false} SplitJoined(tokens: seq<string>)
    requires tokens != [] && forall t :: t in tokens ==> Token(t)
    ensures SplitFrom([], "", Join(tokens)) == Some(tokens)
  {
    var t := tokens[0];
    assert t in tokens && Token(t);
    assert "" + t == t;
    assert Scan([], t) == Some([]) && TopCommas([], t) == 0 && Trim(t) == t;
    hide Scan, TopCommas, Trim, Feed, SplitFrom, Token, Balanced;
    if |tokens| == 1 {
      TokenPasses([], "", t, "");
      AtEnd(t);
      assert t + "" == t && [t] == tokens;
    } else {
      var rest := Join(tokens[1..]);
      SplitJoined(tokens[1..]);
      TokenPasses([], "", t, "," + rest);
      AtComma(t, rest);
      assert t + "," + rest == t + ("," + rest) && [t] + tokens[1..] == tokens;
    }
  }

  lemma TrimmedEnds(s: string)
    ensures Trim(s) == s <==> s == [] || (!IsSpace(s[0]) && !IsSpace(s[|s| - 1]))
  {
    if s != [] && Trim(s) == s { assert |TrimFront(s)| <= |s| && |Trim(s)| <= |TrimFront(s)|; FrontShorter(s); }
  }

  lemma {:induction false} FrontShorter(s: string)
    ensures |TrimFront(s)| == |s| <==> TrimFront(s) == s
  {
    if s != [] && IsSpace(s[0]) { FrontShorter(s[1..]); }
  }

  lemma {:induction false} JoinTrimmed(tokens: seq<string>)
    requires tokens != [] && forall t :: t in tokens ==> Trim(t) == t
    ensures Trim(Join(tokens)) == Join(tokens)
  {
    var t := tokens[0];
    TrimmedEnds(t);
    TrimmedEnds(Join(tokens));
    if |tokens| > 1 {
      JoinTrimmed(tokens[1..]);
      TrimmedEnds(Join(tokens[1..]));
    }
  }

  /** Splitting the comma-joined list of tokens gives the list back. */
  lemma SplitUndoesJoin(tokens: seq<string>)
    requires tokens != [] && forall t :: t in tokens ==> Token(t)
    ensures Split(Join(tokens)) == Some(tokens)
  {
    JoinTrimmed(tokens);
    SplitJoined(tokens);
  }

  /** Joining what was split and splitting again changes nothing. */
  lemma SplitIsStable(input: string)
    requires Balanced(input)
    ensures Split(input).Some? && Split(input).value != [] && Split(Join(Split(input).value)) == Split(input)
  {
    SplitMeaning(input);
    SplitUndoesJoin(Split(input).value);
  }

  // --- what is kept -------------------------------------------------------------------------------------

  predicate Spaces(s: string) {
    forall c :: c in s ==> IsSpace(c)
  }

  lemma {:induction false} TrimFrontTakes(s: string) returns (front: string)
    ensures s == front + TrimFront(s) && Spaces(front)
  {
    if s == [] || !IsSpace(s[0]) {
      front := "";
    } else {
      var rest := TrimFrontTakes(s[1..]);
      front := [s[0]] + rest;
    }
  }

  lemma {:induction false} TrimBackTakes(s: string) returns (back: string)
    ensures s == TrimBack(s) + back && Spaces(back)
  {
    if s == [] || !IsSpace(s[|s| - 1]) {
      back := "";
    } else {
      var rest := TrimBackTakes(s[..|s| - 1]);
      back := rest + [s[|s| - 1]];
      assert s == s[..|s| - 1] + [s[|s| - 1]];
    }
  }

  /** Trimming takes white space off both ends, all of it, and nothing else. */
  lemma TrimTakesSpaces(s: string) returns (front: string, back: string)
    ensures s == front + Trim(s) + back && Spaces(front) && Spaces(back)
    ensures Trim(s) != [] ==> !IsSpace(Trim(s)[0]) && !IsSpace(Trim(s)[|Trim(s)| - 1])
  {
    front := TrimFrontTakes(s);
    back := TrimBackTakes(TrimFront(s));
  }

  lemma {:induction false} PiecesOf(stack: seq<char>, current: string, s: string) returns (pieces: seq<string>)
    requires SplitFrom(stack, current, s).Some?
    ensures |pieces| == |SplitFrom(stack, current, s).value| && pieces != [] && Join(pieces) == current + s
    ensures forall i :: 0 <= i < |pieces| ==> SplitFrom(stack, current, s).value[i] == Trim(pieces[i])
    decreases |s|
  {
    hide Trim;
    if s == [] {
      pieces := [current];
      assert current + s == current;
    } else if s[0] == ',' && stack == [] {
      var rest := PiecesOf([], "", s[1..]);
      pieces := [current] + rest;
      assert pieces[1..] == rest && "" + s[1..] == s[1..];
      assert current + "," + s[1..] == current + s;
    } else {
      pieces := PiecesOf(Feed(stack, s[0]).value, current + [s[0]], s[1..]);
      assert current + [s[0]] + s[1..] == current + s;
    }
  }

  /** The tokens are what stands between the top-level commas, without the white space around it: nothing of
      the input is lost, doubled or moved. */
  lemma TokensArePieces(input: string) returns (pieces: seq<string>)
    requires Split(input).Some?
    ensures |pieces| == |Split(input).value| && pieces != [] && Join(pieces) == Trim(input)
    ensures forall i :: 0 <= i < |pieces| ==> Split(input).value[i] == Trim(pieces[i])
  {
    pieces := PiecesOf([], "", Trim(input));
    assert "" + Trim(input) == Trim(input);
  }

  /** Balanced text in brackets of one kind is balanced and hides its commas; in brackets of two kinds it is
      not balanced. */
  lemma BalancedInBrackets(s: string)
    requires Balanced(s)
    ensures Balanced("(" + s + ")") && TopCommas([], "(" + s + ")") == 0
    ensures Balanced("[" + s + "]") && TopCommas([], "[" + s + "]") == 0
    ensures !Balanced("(" + s + "]") && !Balanced("[" + s + ")") && !Balanced(s + ")") && !Balanced(s + "]")
    ensures !Balanced("(" + s) && !Balanced("[" + s)
  {
    Bracketed(s, '(', ')');
    Bracketed(s, '[', ']');
    Bracketed(s, '(', ']');
    Bracketed(s, '[', ')');
    ScanConcat([], s, ")");
    ScanConcat([], s, "]");
    assert Feed([], ')') == None && Feed([], ']') == None;
  }

  lemma Bracketed(s: string, open: char, close: char)
    requires Balanced(s) && (open == '(' || open == '[') && (close == ')' || close == ']')
    ensures Balanced([open] + s + [close]) <==> (open == '(' <==> close == ')')
    ensures Balanced([open] + s + [close]) ==> TopCommas([], [open] + s + [close]) == 0
    ensures !Balanced([open] + s)
  {
    hide Scan, TopCommas;
    var stack := [if open == '(' then ')' else ']'];
    assert [open] + s + [close] == [open] + (s + [close]);
    assert [] + stack == stack && stack + [] == stack;
    OneChar([], open);
    OneChar(stack, close);
    ScanConcat([], [open], s);
    ScanConcat([], [open], s + [close]);
    ScanUnder([], s, stack);
    ScanConcat(stack, s, [close]);
    CommasUnder([], s, stack);
    CommasConcat([], [open], s + [close]);
    CommasConcat(stack, s, [close]);
  }

  lemma OneChar(stack: seq<char>, c: char)
    ensures Scan(stack, [c]) == Feed(stack, c)
    ensures TopCommas(stack, [c]) == if c == ',' && stack == [] then 1 else 0
  {
    assert [c][1..] == "";
  }

  /** Brackets that are open before a text stay open through it. */
  lemma {:induction false} ScanUnder(stack: seq<char>, s: string, under: seq<char>)
    requires Scan(stack, s).Some?
    ensures Scan(under + stack, s) == Some(under + Scan(stack, s).value)
    decreases |s|
  {
    if s != [] {
      var next := Feed(stack, s[0]).value;
      FeedUnder(stack, s[0], under);
      ScanUnder(next, s[1..], under);
    }
  }

  lemma FeedUnder(stack: seq<char>, c: char, under: seq<char>)
    requires Feed(stack, c).Some?
    ensures Feed(under + stack, c) == Some(under + Feed(stack, c).value)
  {
    if c == '(' {
      assert under + stack + [')'] == under + (stack + [')']);
    } else if c == '[' {
      assert under + stack + [']'] == under + (stack + [']']);
    } else if c == ')' || c == ']' {
      assert (under + stack)[..|under + stack| - 1] == under + stack[..|stack| - 1];
    }
  }

  lemma {:induction false} CommasUnder(stack: seq<char>, s: string, under: seq<char>)
    requires Scan(stack, s).Some? && under != []
    ensures TopCommas(under + stack, s) == 0
    decreases |s|
  {
    if s != [] {
      FeedUnder(stack, s[0], under);
      CommasUnder(Feed(stack, s[0]).value, s[1..], under);
    }
  }

  predicate IsBracket(c: char) {
    c in {'(', ')', '[', ']'}
  }

  function Commas(s: string): nat {
    if s == [] then 0 else (if s[0] == ',' then 1 else 0) + Commas(s[1..])
  }

  /** Text without brackets is balanced, and all its commas count. */
  lemma {:induction false} PlainText(s: string)
    requires forall c :: c in s ==> !IsBracket(c)
    ensures Balanced(s) && TopCommas([], s) == Commas(s)
  {
    if s != [] {
      assert s[0] in s;
      PlainText(s[1..]);
    }
  }
}
