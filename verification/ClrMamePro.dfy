/**
 The ClrMamePro reader (src/parsers/clrmamepro.cpp): a tokenizer with quotes, a push parser for
 nested scopes with a stack, and the handlers that gather games and roms.
 */
module ClrMamePro {
  import opened Optional

  // ---------------------------------------------------------------------------------------
  // Tokens
  // ---------------------------------------------------------------------------------------

  datatype Kind = Quote | Whitespace | Single | Normal

  function KindOf(c: char): Kind {
    if c == '(' || c == ')' then Single
    else if c == '\"' then Quote
    else if c == ' ' || c == '\t' || c == '\r' || c == '\n' then Whitespace
    else Normal
  }

  /** A token, unless nothing has been gathered. */
  function Emitted(sb: string): seq<string> {
    if sb == [] then [] else [sb]
  }

  /** The tokenizer between two characters. */
  datatype Lexer = Lexer(sb: string, quote: bool)

  /** One character: the tokenizer afterwards, and the tokens it emits. */
  function Lex(l: Lexer, c: char): (Lexer, seq<string>) {
    match KindOf(c)
    case Whitespace => if l.quote then (l.(sb := l.sb + [c]), []) else (l.(sb := []), Emitted(l.sb))
    case Quote => if l.quote then (Lexer([], false), Emitted(l.sb)) else (l.(quote := true), [])
    case Single => if l.quote then (l.(sb := l.sb + [c]), []) else (l.(sb := []), Emitted(l.sb) + [[c]])
    case Normal => (l.(sb := l.sb + [c]), [])
  }

  /** The characters of a text, and at the end of it what is still gathered. */
  function Tokens(l: Lexer, text: string): seq<string>
    decreases |text|
  {
    if text == [] then Emitted(l.sb)
    else
      var (next, emitted) := Lex(l, text[0]);
      emitted + Tokens(next, text[1..])
  }

  function Tokenize(text: string): seq<string> {
    Tokens(Lexer([], false), text)
  }

  /** What a text is made of. */
  datatype Piece = Gap(blank: char) | Plain(atom: string) | Quoted(atom: string) | Open | Close

  predicate PieceGood(p: Piece) {
    match p
    case Gap(c) => c in BLANKS
    case Plain(a) => a != [] && forall i :: 0 <= i < |a| ==> a[i] !in BLANKS && a[i] !in "()\""
    case Quoted(a) => a != [] && '\"' !in a
    case _ => true
  }

  /** What separates tokens and is none: space, tab, carriage return and line feed. */
  const BLANKS := " \t\r\n"

  /** What a character is taken for, character by character. */
  lemma KindsAre(c: char)
    ensures KindOf(c).Whitespace? <==> c in BLANKS
    ensures KindOf(c).Single? <==> c in "()"
    ensures KindOf(c).Quote? <==> c == '\"'
  {
  }

  lemma GapKind(c: char)
    requires PieceGood(Gap(c))
    ensures KindOf(c).Whitespace?
  {
  }

  lemma PlainKinds(a: string)
    requires PieceGood(Plain(a))
    ensures a != [] && forall i :: 0 <= i < |a| ==> KindOf(a[i]).Normal?
  {
    hide KindOf;
    forall i | 0 <= i < |a|
      ensures KindOf(a[i]).Normal?
    {
      KindsAre(a[i]);
      assert a[i] !in "()\"";
      assert "()\""[0] == '(' && "()\""[1] == ')' && "()\""[2] == '\"';
    }
  }

  /** A token can be written between quotes exactly when it is not empty and has no quote in it. */
  lemma QuotedKinds(a: string)
    ensures PieceGood(Quoted(a)) <==> a != [] && forall i :: 0 <= i < |a| ==> !KindOf(a[i]).Quote?
  {
    hide KindOf;
    forall i | 0 <= i < |a|
      ensures KindOf(a[i]).Quote? <==> a[i] == '\"'
    {
      KindsAre(a[i]);
    }
  }

  /** Plain atoms are followed by something that ends them. */
  predicate PiecesGood(pieces: seq<Piece>)
    decreases |pieces|
  {
    pieces != [] ==>
      && PieceGood(pieces[0]) && PiecesGood(pieces[1..])
      && (pieces[0].Plain? && |pieces| > 1 ==> !pieces[1].Plain? && !pieces[1].Quoted?)
  }

  function Spelled(p: Piece): string {
    match p case Gap(c) => [c] case Plain(a) => a case Quoted(a) => "\"" + a + "\"" case Open => "(" case Close => ")"
  }

  function Text(pieces: seq<Piece>): string
    decreases |pieces|
  {
    if pieces == [] then [] else Spelled(pieces[0]) + Text(pieces[1..])
  }

  function PieceTokens(p: Piece): seq<string> {
    match p case Gap(_) => [] case Plain(a) => [a] case Quoted(a) => [a] case Open => ["("] case Close => [")"]
  }

  function TokensOf(pieces: seq<Piece>): seq<string>
    decreases |pieces|
  {
    if pieces == [] then [] else PieceTokens(pieces[0]) + TokensOf(pieces[1..])
  }

  /** Characters that are gathered, one after the other. */
  lemma {:induction false} Gathered(l: Lexer, a: string, rest: string)
    requires forall i :: 0 <= i < |a| ==> KindOf(a[i]).Normal? || (l.quote && !KindOf(a[i]).Quote?)
    ensures Tokens(l, a + rest) == Tokens(l.(sb := l.sb + a), rest)
    decreases |a|
  {
    hide KindOf;
    if a == [] {
      assert a + rest == rest && l.sb + a == l.sb;
    } else {
      var text := a + rest;
      assert text[0] == a[0] && text[1..] == a[1..] + rest;
      Gathered(l.(sb := l.sb + [a[0]]), a[1..], rest);
      assert (l.sb + [a[0]]) + a[1..] == l.sb + a;
      assert [] + Tokens(l.(sb := l.sb + [a[0]]), text[1..]) == Tokens(l.(sb := l.sb + [a[0]]), text[1..]);
    }
  }

  lemma OneCharacter(l: Lexer, c: char, rest: string)
    ensures Tokens(l, [c] + rest) == Lex(l, c).1 + Tokens(Lex(l, c).0, rest)
  {
    var text := [c] + rest;
    assert text[0] == c && text[1..] == rest;
  }

  /** What ends an atom emits it. */
  lemma Flushed(sb: string, c: char, rest: string)
    requires KindOf(c).Whitespace? || KindOf(c).Single?
    ensures Tokens(Lexer(sb, false), [c] + rest) == Emitted(sb) + Tokens(Lexer([], false), [c] + rest)
  {
    OneCharacter(Lexer(sb, false), c, rest);
    OneCharacter(Lexer([], false), c, rest);
    assert Emitted(sb) + ([] + [[c]] + Tokens(Lexer([], false), rest)) == (Emitted(sb) + [[c]]) + Tokens(Lexer([], false), rest);
    assert Emitted([]) + [[c]] == [[c]];
  }

  lemma FirstCharacter(pieces: seq<Piece>)
    requires PiecesGood(pieces) && pieces != [] && !pieces[0].Plain? && !pieces[0].Quoted?
    ensures exists c :: (KindOf(c).Whitespace? || KindOf(c).Single?) && Text(pieces) == [c] + Text(pieces[1..])
  {
    var c := Spelled(pieces[0])[0];
    assert Spelled(pieces[0]) == [c];
    KindsAre(c);
  }

  lemma QuotedTokens(a: string, rest: string)
    requires PieceGood(Quoted(a))
    ensures Tokenize(Spelled(Quoted(a)) + rest) == [a] + Tokenize(rest)
  {
    hide Tokens, KindOf;
    var start := Lexer([], false);
    assert Spelled(Quoted(a)) + rest == ['\"'] + (a + (['\"'] + rest));
    QuoteIsQuote();
    QuotedKinds(a);
    OneCharacter(start, '\"', a + (['\"'] + rest));
    Gathered(Lexer([], true), a, ['\"'] + rest);
    assert [] + a == a;
    OneCharacter(Lexer(a, true), '\"', rest);
    assert [] + ([a] + Tokens(start, rest)) == [a] + Tokens(start, rest);
  }

  lemma QuoteIsQuote()
    ensures KindOf('\"').Quote? && KindOf('(').Single? && KindOf(')').Single?
  {
  }

  lemma PlainTokens(a: string, rest: seq<Piece>)
    requires PieceGood(Plain(a)) && PiecesGood(rest) && (rest != [] ==> !rest[0].Plain? && !rest[0].Quoted?)
    ensures Tokenize(a + Text(rest)) == [a] + Tokenize(Text(rest))
  {
    hide Tokens, KindOf;
    PlainKinds(a);
    Gathered(Lexer([], false), a, Text(rest));
    assert [] + a == a;
    if rest == [] {
      NothingLeft(a);
    } else {
      FirstCharacter(rest);
      var c :| (KindOf(c).Whitespace? || KindOf(c).Single?) && Text(rest) == [c] + Text(rest[1..]);
      Flushed(a, c, Text(rest[1..]));
    }
  }

  lemma NothingLeft(a: string)
    ensures Tokens(Lexer(a, false), []) == Emitted(a)
    ensures Emitted(a) + Tokens(Lexer([], false), []) == Emitted(a)
  {
  }

  /** Tokenizing a text gives back the tokens it spells, however it is laid out and quoted. */
  lemma {:induction false} TokenizeText(pieces: seq<Piece>)
    requires PiecesGood(pieces)
    ensures Tokenize(Text(pieces)) == TokensOf(pieces)
    decreases |pieces|
  {
    hide KindOf, Tokenize;
    if pieces == [] {
      EmptyText();
    } else {
      var rest := pieces[1..];
      TokenizeText(rest);
      match pieces[0] {
        case Gap(c) =>
          GapKind(c);
          SingleCharacter(c, Text(rest));
          assert [] + TokensOf(rest) == TokensOf(rest);
        case Plain(a) => PlainTokens(a, rest);
        case Quoted(a) => QuotedTokens(a, Text(rest));
        case Open =>
          QuoteIsQuote();
          SingleCharacter('(', Text(rest));
        case Close =>
          QuoteIsQuote();
          SingleCharacter(')', Text(rest));
      }
    }
  }

  lemma EmptyText()
    ensures Tokenize([]) == []
  {
  }

  lemma SingleCharacter(c: char, rest: string)
    requires KindOf(c).Whitespace? || KindOf(c).Single?
    ensures Tokenize([c] + rest) == (if KindOf(c).Whitespace? then [] else [[c]]) + Tokenize(rest)
  {
    OneCharacter(Lexer([], false), c, rest);
    assert Emitted([]) + [[c]] == [[c]];
  }

  // ---------------------------------------------------------------------------------------
  // Trees
  // ---------------------------------------------------------------------------------------

  datatype Node = Pair(key: string, value: string) | Scope(name: string, children: seq<Node>)

  datatype Event = OnPair(key: string, value: string) | OnScope(name: string, isEnd: bool)

  /** A token that is not taken for the start or the end of a scope. */
  predicate IsAtom(token: string) {
    token != "(" && token != ")"
  }

  predicate Atoms(nodes: seq<Node>)
    decreases nodes
  {
    nodes != [] ==>
      && (match nodes[0] case Pair(k, v) => IsAtom(k) && IsAtom(v) case Scope(name, children) => IsAtom(name) && Atoms(children))
      && Atoms(nodes[1..])
  }

  /** The tokens of a tree. */
  function TreeTokens(nodes: seq<Node>): seq<string>
    decreases nodes
  {
    if nodes == [] then []
    else
      (match nodes[0] case Pair(k, v) => [k, v] case Scope(name, children) => [name, "("] + TreeTokens(children) + [")"])
      + TreeTokens(nodes[1..])
  }

  /** The events of a tree, in pre-order. */
  function TreeEvents(nodes: seq<Node>): seq<Event>
    decreases nodes
  {
    if nodes == [] then []
    else
      (match nodes[0]
       case Pair(k, v) => [OnPair(k, v)]
       case Scope(name, children) => [OnScope(name, false)] + TreeEvents(children) + [OnScope(name, true)])
      + TreeEvents(nodes[1..])
  }

  /** The push parser: its stack, whether a token is waiting, and whether it has read past the stack. */
  datatype Pusher = Pusher(tokens: seq<string>, partial: bool, crashed: bool)

  function Last(tokens: seq<string>): string
    requires tokens != []
  {
    tokens[|tokens| - 1]
  }

  function Front(tokens: seq<string>): seq<string>
    requires tokens != []
  {
    tokens[..|tokens| - 1]
  }

  /** One token: the parser afterwards, and the events it fires. */
  function Push(p: Pusher, token: string): (Pusher, seq<Event>) {
    if p.crashed then (p, [])
    else if token == "(" then
      if p.tokens == [] then (p.(crashed := true), []) else (p.(partial := false), [OnScope(Last(p.tokens), false)])
    else if token == ")" then
      if p.tokens == [] then (p.(crashed := true), [])
      else (Pusher(Front(p.tokens), false, false), [OnScope(Last(p.tokens), true)])
    else if p.partial then
      if p.tokens == [] then (p.(crashed := true), [])
      else (Pusher(Front(p.tokens), false, false), [OnPair(Last(p.tokens), token)])
    else (p.(tokens := p.tokens + [token], partial := true), [])
  }

  function PushAll(p: Pusher, tokens: seq<string>): (r: (Pusher, seq<Event>))
    decreases |tokens|
  {
    if tokens == [] then (p, [])
    else
      var (next, fired) := Push(p, tokens[0]);
      var (final, more) := PushAll(next, tokens[1..]);
      (final, fired + more)
  }

  lemma {:induction false} PushConcat(p: Pusher, a: seq<string>, b: seq<string>)
    ensures PushAll(p, a + b) == (PushAll(PushAll(p, a).0, b).0, PushAll(p, a).1 + PushAll(PushAll(p, a).0, b).1)
    decreases |a|
  {
    hide Push;
    if a == [] {
      assert a + b == b;
      assert [] + PushAll(p, b).1 == PushAll(p, b).1;
    } else {
      var (next, fired) := Push(p, a[0]);
      assert (a + b)[0] == a[0] && (a + b)[1..] == a[1..] + b;
      PushConcat(next, a[1..], b);
      var x, y := PushAll(next, a[1..]).1, PushAll(PushAll(next, a[1..]).0, b).1;
      assert fired + (x + y) == (fired + x) + y;
    }
  }

  lemma PushOne(p: Pusher, token: string)
    ensures PushAll(p, [token]) == Push(p, token)
  {
    var one := [token];
    assert one[1..] == [];
    assert Push(p, token).1 + [] == Push(p, token).1;
  }

  /** Between two nodes the parser waits for nothing, whatever scopes are open. */
  function Waiting(stack: seq<string>): Pusher { Pusher(stack, false, false) }

  lemma PushPair(stack: seq<string>, k: string, v: string)
    requires IsAtom(k) && IsAtom(v)
    ensures PushAll(Waiting(stack), [k, v]) == (Waiting(stack), [OnPair(k, v)])
  {
    hide PushAll;
    var p := Waiting(stack);
    assert [k, v] == [k] + [v];
    PushConcat(p, [k], [v]);
    PushOne(p, k);
    PushOne(Push(p, k).0, v);
    assert Front(stack + [k]) == stack && Last(stack + [k]) == k;
    assert Push(p, k) == (Pusher(stack + [k], true, false), []);
    assert [] + [OnPair(k, v)] == [OnPair(k, v)];
  }

  lemma PushOpen(stack: seq<string>, name: string)
    requires IsAtom(name)
    ensures PushAll(Waiting(stack), [name, "("]) == (Waiting(stack + [name]), [OnScope(name, false)])
  {
    hide PushAll;
    var p := Waiting(stack);
    assert [name, "("] == [name] + ["("];
    PushConcat(p, [name], ["("]);
    PushOne(p, name);
    PushOne(Push(p, name).0, "(");
    assert Last(stack + [name]) == name;
    assert Push(p, name) == (Pusher(stack + [name], true, false), []);
    assert [] + [OnScope(name, false)] == [OnScope(name, false)];
  }

  lemma PushClose(stack: seq<string>, name: string)
    ensures PushAll(Waiting(stack + [name]), [")"]) == (Waiting(stack), [OnScope(name, true)])
  {
    PushOne(Waiting(stack + [name]), ")");
    assert Front(stack + [name]) == stack;
  }

  /** The tokens of a tree fire its events in pre-order and leave the stack as it was. */
  lemma {:induction false} PushTree(stack: seq<string>, nodes: seq<Node>)
    requires Atoms(nodes)
    ensures PushAll(Waiting(stack), TreeTokens(nodes)) == (Waiting(stack), TreeEvents(nodes))
    decreases nodes
  {
    hide Push, PushAll, Waiting, IsAtom;
    if nodes == [] {
      PushNothing(Waiting(stack));
    } else {
      var rest := nodes[1..];
      PushTree(stack, rest);
      match nodes[0] {
        case Pair(k, v) =>
          PushPair(stack, k, v);
          PushConcat(Waiting(stack), [k, v], TreeTokens(rest));
        case Scope(name, children) =>
          PushOpen(stack, name);
          PushTree(stack + [name], children);
          PushClose(stack, name);
          var inner := [name, "("] + TreeTokens(children);
          PushConcat(Waiting(stack), [name, "("], TreeTokens(children));
          PushConcat(Waiting(stack), inner, [")"]);
          PushConcat(Waiting(stack), inner + [")"], TreeTokens(rest));
      }
    }
  }

  lemma PushNothing(p: Pusher)
    ensures PushAll(p, []) == (p, [])
  {
  }

  /** The events of a text. */
  function EventsOf(text: string): (Pusher, seq<Event>) {
    PushAll(Waiting([]), Tokenize(text))
  }

  /**
   Printing and parsing: any text that spells a tree, laid out and quoted in any way, fires
   exactly the events of the tree and leaves the stack empty.
   */
  lemma ParsePrinted(nodes: seq<Node>, pieces: seq<Piece>)
    requires PiecesGood(pieces) && Atoms(nodes) && TokensOf(pieces) == TreeTokens(nodes)
    ensures EventsOf(Text(pieces)) == (Waiting([]), TreeEvents(nodes))
  {
    hide Tokenize, PushAll;
    TokenizeText(pieces);
    PushTree([], nodes);
  }

  // ---------------------------------------------------------------------------------------
  // Which trees have a text
  // ---------------------------------------------------------------------------------------

  /** A token that can be written between quotes. */
  predicate Quotable(token: string) {
    PieceGood(Quoted(token))
  }

  predicate AllQuotable(tokens: seq<string>) {
    forall i :: 0 <= i < |tokens| ==> Quotable(tokens[i])
  }

  /** A tree written with every name and every value between quotes. */
  function Printed(nodes: seq<Node>): seq<Piece>
    decreases nodes
  {
    if nodes == [] then []
    else
      (match nodes[0]
       case Pair(k, v) => [Quoted(k), Quoted(v)]
       case Scope(name, children) => [Quoted(name), Open] + Printed(children) + [Close])
      + Printed(nodes[1..])
  }

  predicate NonePlain(pieces: seq<Piece>) {
    forall i :: 0 <= i < |pieces| ==> PieceGood(pieces[i]) && !pieces[i].Plain?
  }

  lemma {:induction false} NonePlainGood(pieces: seq<Piece>)
    requires NonePlain(pieces)
    ensures PiecesGood(pieces)
    decreases |pieces|
  {
    hide PieceGood;
    if pieces != [] {
      NonePlainGood(pieces[1..]);
    }
  }

  lemma {:induction false} TokensConcat(a: seq<Piece>, b: seq<Piece>)
    ensures TokensOf(a + b) == TokensOf(a) + TokensOf(b)
    decreases |a|
  {
    hide PieceTokens;
    if a == [] {
      assert a + b == b;
    } else {
      assert (a + b)[1..] == a[1..] + b;
      TokensConcat(a[1..], b);
    }
  }

  lemma TwoPieces(p: Piece, q: Piece)
    ensures TokensOf([p, q]) == PieceTokens(p) + PieceTokens(q) && TokensOf([q]) == PieceTokens(q)
  {
    var two, one := [p, q], [q];
    assert two[1..] == one && one[1..] == [];
    assert PieceTokens(q) + TokensOf([]) == PieceTokens(q);
  }

  lemma ConcatQuotable(a: seq<string>, b: seq<string>)
    requires AllQuotable(a + b)
    ensures AllQuotable(a) && AllQuotable(b)
  {
    hide Quotable;
    forall i | 0 <= i < |a|
      ensures Quotable(a[i])
    {
      assert a[i] == (a + b)[i];
    }
    forall i | 0 <= i < |b|
      ensures Quotable(b[i])
    {
      assert b[i] == (a + b)[|a| + i];
    }
  }

  lemma InnerQuotable(name: string, inner: seq<string>)
    requires AllQuotable([name, "("] + inner + [")"])
    ensures Quotable(name) && AllQuotable(inner)
  {
    hide Quotable;
    var all := [name, "("] + inner + [")"];
    assert all[0] == name;
    forall i | 0 <= i < |inner|
      ensures Quotable(inner[i])
    {
      assert inner[i] == all[i + 2];
    }
  }

  lemma PairSpells(k: string, v: string, rest: seq<Piece>)
    requires Quotable(k) && Quotable(v) && NonePlain(rest)
    ensures NonePlain([Quoted(k), Quoted(v)] + rest) && TokensOf([Quoted(k), Quoted(v)] + rest) == [k, v] + TokensOf(rest)
  {
    TwoPieces(Quoted(k), Quoted(v));
    TokensConcat([Quoted(k), Quoted(v)], rest);
  }

  lemma ScopeSpells(name: string, inner: seq<Piece>, rest: seq<Piece>)
    requires Quotable(name) && NonePlain(inner) && NonePlain(rest)
    ensures var all := [Quoted(name), Open] + inner + [Close] + rest;
            NonePlain(all) && TokensOf(all) == [name, "("] + TokensOf(inner) + [")"] + TokensOf(rest)
  {
    hide TokensOf, Quotable;
    TwoPieces(Quoted(name), Open);
    TwoPieces(Open, Close);
    TokensConcat([Quoted(name), Open], inner);
    TokensConcat([Quoted(name), Open] + inner, [Close]);
    TokensConcat([Quoted(name), Open] + inner + [Close], rest);
    assert PieceGood(Quoted(name)) by { QuotableIs(name); }
  }

  lemma QuotableIs(token: string)
    requires Quotable(token)
    ensures PieceGood(Quoted(token))
  {
  }

  /** The printed tree is a text that spells the tree. */
  lemma {:induction false} PrintedSpells(nodes: seq<Node>)
    requires AllQuotable(TreeTokens(nodes))
    ensures NonePlain(Printed(nodes)) && TokensOf(Printed(nodes)) == TreeTokens(nodes)
    decreases nodes
  {
    hide Quotable, AllQuotable, NonePlain, TokensOf;
    if nodes == [] {
      NothingSpelled();
    } else {
      var rest := nodes[1..];
      match nodes[0] {
        case Pair(k, v) =>
          ConcatQuotable([k, v], TreeTokens(rest));
          PrintedSpells(rest);
          PairQuotable(k, v);
          PairSpells(k, v, Printed(rest));
        case Scope(name, children) =>
          var inner := [name, "("] + TreeTokens(children) + [")"];
          ConcatQuotable(inner, TreeTokens(rest));
          InnerQuotable(name, TreeTokens(children));
          PrintedSpells(rest);
          PrintedSpells(children);
          ScopeSpells(name, Printed(children), Printed(rest));
      }
    }
  }

  lemma PairQuotable(k: string, v: string)
    requires AllQuotable([k, v])
    ensures Quotable(k) && Quotable(v)
  {
    hide Quotable;
    assert [k, v][0] == k && [k, v][1] == v;
  }

  lemma NothingSpelled()
    ensures TreeTokens([]) == [] && TokensOf([]) == [] && NonePlain([])
  {
  }

  predicate QuoteFree(s: string) {
    forall i :: 0 <= i < |s| ==> !KindOf(s[i]).Quote?
  }

  lemma EmittedQuotable(sb: string)
    requires QuoteFree(sb)
    ensures AllQuotable(Emitted(sb))
  {
    QuotedKinds(sb);
  }

  lemma QuotableConcat(a: seq<string>, b: seq<string>)
    requires AllQuotable(a) && AllQuotable(b)
    ensures AllQuotable(a + b)
  {
  }

  lemma LexQuotable(l: Lexer, c: char)
    requires QuoteFree(l.sb)
    ensures QuoteFree(Lex(l, c).0.sb) && AllQuotable(Lex(l, c).1)
  {
    EmittedQuotable(l.sb);
    if KindOf(c).Single? {
      QuotedKinds([c]);
      assert Quotable([c]);
    }
  }

  /** Whatever the text, no token is empty or has a quote in it. */
  lemma {:induction false} TokensQuotable(l: Lexer, text: string)
    requires QuoteFree(l.sb)
    ensures AllQuotable(Tokens(l, text))
    decreases |text|
  {
    hide Lex, AllQuotable, QuoteFree;
    if text == [] {
      EmittedQuotable(l.sb);
    } else {
      var (next, emitted) := Lex(l, text[0]);
      LexQuotable(l, text[0]);
      TokensQuotable(next, text[1..]);
      QuotableConcat(emitted, Tokens(next, text[1..]));
    }
  }

  /** A tree has a text exactly when none of its names and values is empty or has a quote in it. */
  lemma HasTextExactly(nodes: seq<Node>)
    ensures (exists text :: Tokenize(text) == TreeTokens(nodes)) <==> AllQuotable(TreeTokens(nodes))
  {
    hide AllQuotable, TreeTokens, Tokens, NonePlain;
    if AllQuotable(TreeTokens(nodes)) {
      PrintedSpells(nodes);
      NonePlainGood(Printed(nodes));
      TokenizeText(Printed(nodes));
      assert Tokenize(Text(Printed(nodes))) == TreeTokens(nodes);
    }
    if text :| Tokenize(text) == TreeTokens(nodes) {
      TokensQuotable(Lexer([], false), text);
    }
  }

  /** Printing a tree and reading it: the events of the tree, unless a name or a value is taken for a parenthesis. */
  lemma PrintedParses(nodes: seq<Node>)
    requires AllQuotable(TreeTokens(nodes)) && Atoms(nodes)
    ensures EventsOf(Text(Printed(nodes))) == (Waiting([]), TreeEvents(nodes))
  {
    hide AllQuotable, TreeTokens, NonePlain, EventsOf;
    PrintedSpells(nodes);
    NonePlainGood(Printed(nodes));
    ParsePrinted(nodes, Printed(nodes));
  }

  // ---------------------------------------------------------------------------------------
  // Games and roms
  // ---------------------------------------------------------------------------------------

  /** A rom; the digests as they are written. */
  datatype Rom = Rom(name: string, size: nat, sizeEnabled: bool, crc32: Option<string>, md5: Option<string>, sha1: Option<string>)

  datatype Game = Game(name: string, roms: seq<Rom>)

  datatype Level = Root | InGame | InRom

  /** What the handlers keep: the flag, the scope, the rom and the game at hand, and the result. */
  datatype Dat = Dat(started: bool, level: Level, rom: Rom, game: Game, games: seq<Game>, count: nat, sizeInBytes: nat)

  /** How a size is read, and what a size holds that was never set. */
  datatype Reading = Reading(decimal: string -> nat, unset: nat)

  /** A size is a field of 60 bits. */
  const SIZE_BASE: nat := 0x1000_0000_0000_0000
  const SUM_BASE: nat := 0x1_0000_0000_0000_0000

  function NewRom(r: Reading): Rom { Rom([], r.unset, false, None, None, None) }

  function WithField(rom: Rom, k: string, v: string, r: Reading): Rom {
    if k == "size" then rom.(size := r.decimal(v) % SIZE_BASE, sizeEnabled := true)
    else if k == "crc" then rom.(crc32 := Some(v))
    else if k == "md5" then rom.(md5 := Some(v))
    else if k == "sha1" then rom.(sha1 := Some(v))
    else rom
  }

  /** `pair` */
  function HandlePair(d: Dat, k: string, v: string, r: Reading): Dat {
    if !d.started then d
    else if k == "name" then
      if d.level.InRom? then d.(rom := d.rom.(name := v))
      else if d.level.InGame? then d.(game := d.game.(name := v))
      else d
    else d.(rom := WithField(d.rom, k, v, r))
  }

  /** `scope` */
  function HandleScope(d: Dat, k: string, isEnd: bool, r: Reading): Dat {
    if k == "rom" then
      if isEnd then
        d.(count := d.count + 1, sizeInBytes := (d.sizeInBytes + d.rom.size) % SUM_BASE,
           game := d.game.(roms := d.game.roms + [d.rom]), level := InGame)
      else d.(level := InRom, rom := NewRom(r))
    else if k == "game" then
      if isEnd then d.(games := d.games + [d.game], level := Root)
      else d.(level := InGame, game := Game([], []))
    else if isEnd && k == "clrmamepro" then d.(started := true)
    else d
  }

  function Handle(d: Dat, e: Event, r: Reading): Dat {
    match e case OnPair(k, v) => HandlePair(d, k, v, r) case OnScope(name, isEnd) => HandleScope(d, name, isEnd, r)
  }

  function HandleAll(d: Dat, events: seq<Event>, r: Reading): Dat
    decreases |events|
  {
    if events == [] then d else HandleAll(Handle(d, events[0], r), events[1..], r)
  }

  // ---------------------------------------------------------------------------------------
  // What a tree means
  // ---------------------------------------------------------------------------------------

  predicate IsKnown(name: string) {
    name == "rom" || name == "game" || name == "clrmamepro"
  }

  /** Inside a rom there are pairs, and scopes that mean nothing to the reader. */
  predicate RomShape(nodes: seq<Node>)
    decreases nodes
  {
    nodes != [] ==> (nodes[0].Scope? ==> !IsKnown(nodes[0].name) && RomShape(nodes[0].children)) && RomShape(nodes[1..])
  }

  predicate GameShape(nodes: seq<Node>)
    decreases nodes
  {
    nodes != [] ==>
      && (nodes[0].Scope? ==>
            if nodes[0].name == "rom" then RomShape(nodes[0].children) else !IsKnown(nodes[0].name) && GameShape(nodes[0].children))
      && GameShape(nodes[1..])
  }

  /** Games stand outside of games, and roms in games. */
  predicate DatShape(nodes: seq<Node>)
    decreases nodes
  {
    nodes != [] ==>
      && (nodes[0].Scope? ==>
            if nodes[0].name == "game" then GameShape(nodes[0].children) else nodes[0].name != "rom" && DatShape(nodes[0].children))
      && DatShape(nodes[1..])
  }

  /** The rom that the pairs describe, if pairs count yet. */
  function RomOf(nodes: seq<Node>, rom: Rom, started: bool, r: Reading): Rom
    decreases nodes
  {
    if nodes == [] then rom else RomOf(nodes[1..], RomAfter(nodes[0], rom, started, r), started, r)
  }

  function RomAfter(node: Node, rom: Rom, started: bool, r: Reading): Rom
    decreases node
  {
    match node
    case Pair(k, v) => if !started then rom else if k == "name" then rom.(name := v) else WithField(rom, k, v, r)
    case Scope(_, children) => RomOf(children, rom, started, r)
  }

  /** The roms of a game, in order. */
  function RomsOf(nodes: seq<Node>, started: bool, r: Reading): seq<Rom>
    decreases nodes
  {
    if nodes == [] then [] else RomsIn(nodes[0], started, r) + RomsOf(nodes[1..], started, r)
  }

  function RomsIn(node: Node, started: bool, r: Reading): seq<Rom>
    decreases node
  {
    match node
    case Pair(_, _) => []
    case Scope(name, children) => if name == "rom" then [RomOf(children, NewRom(r), started, r)] else RomsOf(children, started, r)
  }

  /** The last name that a game is given outside of its roms. */
  function NameOf(nodes: seq<Node>, name: string, started: bool): string
    decreases nodes
  {
    if nodes == [] then name else NameOf(nodes[1..], NameAfter(nodes[0], name, started), started)
  }

  function NameAfter(node: Node, name: string, started: bool): string
    decreases node
  {
    match node
    case Pair(k, v) => if started && k == "name" then v else name
    case Scope(s, children) => if s == "rom" then name else NameOf(children, name, started)
  }

  function GameOf(nodes: seq<Node>, started: bool, r: Reading): Game {
    Game(NameOf(nodes, [], started), RomsOf(nodes, started, r))
  }

  /** Pairs count from the end of a `clrmamepro` scope on. */
  function StartedBy(nodes: seq<Node>, started: bool): bool
    decreases nodes
  {
    if nodes == [] then started else StartedBy(nodes[1..], StartedAfter(nodes[0], started))
  }

  function StartedAfter(node: Node, started: bool): bool
    decreases node
  {
    match node
    case Pair(_, _) => started
    case Scope(name, children) => if name == "game" then started else StartedBy(children, started) || name == "clrmamepro"
  }

  /** The games of a tree, in order. */
  function GamesOf(nodes: seq<Node>, started: bool, r: Reading): seq<Game>
    decreases nodes
  {
    if nodes == [] then [] else GamesIn(nodes[0], started, r) + GamesOf(nodes[1..], StartedAfter(nodes[0], started), r)
  }

  function GamesIn(node: Node, started: bool, r: Reading): seq<Game>
    decreases node
  {
    match node
    case Pair(_, _) => []
    case Scope(name, children) => if name == "game" then [GameOf(children, started, r)] else GamesOf(children, started, r)
  }

  // ---------------------------------------------------------------------------------------
  // The same, field by field
  // ---------------------------------------------------------------------------------------

  /** The pairs of a tree in pre-order. */
  function Pairs(nodes: seq<Node>): seq<(string, string)>
    decreases nodes
  {
    if nodes == [] then [] else PairsIn(nodes[0]) + Pairs(nodes[1..])
  }

  function PairsIn(node: Node): seq<(string, string)>
    decreases node
  {
    match node case Pair(k, v) => [(k, v)] case Scope(_, children) => Pairs(children)
  }

  /** Those outside of rom scopes. */
  function OwnPairs(nodes: seq<Node>): seq<(string, string)>
    decreases nodes
  {
    if nodes == [] then [] else OwnPairsIn(nodes[0]) + OwnPairs(nodes[1..])
  }

  function OwnPairsIn(node: Node): seq<(string, string)>
    decreases node
  {
    match node case Pair(k, v) => [(k, v)] case Scope(name, children) => if name == "rom" then [] else OwnPairs(children)
  }

  /** The value of the last pair with the key. */
  function LastValue(pairs: seq<(string, string)>, key: string): Option<string>
    decreases |pairs|
  {
    if pairs == [] then None
    else if pairs[|pairs| - 1].0 == key then Some(pairs[|pairs| - 1].1)
    else LastValue(pairs[..|pairs| - 1], key)
  }

  function Or<T>(a: Option<T>, b: T): T {
    if a.Some? then a.value else b
  }

  /** `said` is what the pairs say of a rom, and where they say nothing what `rom` is. */
  predicate SaidOver(said: Rom, rom: Rom, pairs: seq<(string, string)>, r: Reading) {
    && said.name == Or(LastValue(pairs, "name"), rom.name)
    && (match LastValue(pairs, "size")
        case None => said.size == rom.size && said.sizeEnabled == rom.sizeEnabled
        case Some(v) => said.size == r.decimal(v) % SIZE_BASE && said.sizeEnabled)
    && said.crc32 == (if LastValue(pairs, "crc").Some? then LastValue(pairs, "crc") else rom.crc32)
    && said.md5 == (if LastValue(pairs, "md5").Some? then LastValue(pairs, "md5") else rom.md5)
    && said.sha1 == (if LastValue(pairs, "sha1").Some? then LastValue(pairs, "sha1") else rom.sha1)
  }

  lemma {:induction false} LastConcat(a: seq<(string, string)>, b: seq<(string, string)>, key: string)
    ensures LastValue(a + b, key) == if LastValue(b, key).Some? then LastValue(b, key) else LastValue(a, key)
    decreases |b|
  {
    if b == [] {
      assert a + b == a;
    } else {
      assert (a + b)[..|a + b| - 1] == a + b[..|b| - 1];
      LastConcat(a, b[..|b| - 1], key);
    }
  }

  lemma SaidTwice(said: Rom, middle: Rom, rom: Rom, a: seq<(string, string)>, b: seq<(string, string)>, r: Reading)
    requires SaidOver(middle, rom, a, r) && SaidOver(said, middle, b, r)
    ensures SaidOver(said, rom, a + b, r)
  {
    hide LastValue;
    LastConcat(a, b, "name");
    LastConcat(a, b, "size");
    LastConcat(a, b, "crc");
    LastConcat(a, b, "md5");
    LastConcat(a, b, "sha1");
  }

  lemma NothingSaid(rom: Rom, r: Reading)
    ensures SaidOver(rom, rom, [], r)
  {
  }

  lemma PairSays(rom: Rom, k: string, v: string, r: Reading)
    ensures SaidOver(if k == "name" then rom.(name := v) else WithField(rom, k, v, r), rom, [(k, v)], r)
  {
    hide LastValue;
    OneValue(k, v, "name");
    OneValue(k, v, "size");
    OneValue(k, v, "crc");
    OneValue(k, v, "md5");
    OneValue(k, v, "sha1");
  }

  lemma OneValue(k: string, v: string, key: string)
    ensures LastValue([(k, v)], key) == if k == key then Some(v) else None
  {
    var one := [(k, v)];
    assert one[..0] == [];
  }

  /** What a rom's nodes describe is what the last pairs with each key say. */
  lemma {:induction false} RomIsSaid(nodes: seq<Node>, rom: Rom, r: Reading)
    ensures SaidOver(RomOf(nodes, rom, true, r), rom, Pairs(nodes), r)
    decreases nodes
  {
    hide SaidOver, WithField;
    if nodes == [] {
      NothingSaid(rom, r);
    } else {
      var rest := nodes[1..];
      var next := RomAfter(nodes[0], rom, true, r);
      match nodes[0] {
        case Pair(k, v) => PairSays(rom, k, v, r);
        case Scope(_, children) => RomIsSaid(children, rom, r);
      }
      RomIsSaid(rest, next, r);
      SaidTwice(RomOf(nodes, rom, true, r), next, rom, PairsIn(nodes[0]), Pairs(rest), r);
    }
  }

  lemma {:induction false} NotStarted(nodes: seq<Node>, rom: Rom, r: Reading)
    ensures RomOf(nodes, rom, false, r) == rom
    decreases nodes
  {
    if nodes != [] {
      if nodes[0].Scope? {
        NotStarted(nodes[0].children, rom, r);
      }
      NotStarted(nodes[1..], rom, r);
    }
  }

  /** The pairs that count. */
  function Counting(pairs: seq<(string, string)>, started: bool): seq<(string, string)> {
    if started then pairs else []
  }

  /**
   A rom with the nodes `nodes`: its name, its CRC-32, its MD5, its SHA-1 and its size are the values of the
   last pairs `name`, `crc`, `md5`, `sha1` and `size`; without such a pair there is none.
   */
  predicate RomSays(rom: Rom, nodes: seq<Node>, started: bool, r: Reading) {
    var pairs := Counting(Pairs(nodes), started);
    && rom.name == Or(LastValue(pairs, "name"), "")
    && rom.crc32 == LastValue(pairs, "crc") && rom.md5 == LastValue(pairs, "md5") && rom.sha1 == LastValue(pairs, "sha1")
    && rom.sizeEnabled == LastValue(pairs, "size").Some?
    && rom.size == match LastValue(pairs, "size") case Some(v) => r.decimal(v) % SIZE_BASE case None => r.unset
  }

  lemma RomOver(nodes: seq<Node>, rom: Rom, started: bool, r: Reading)
    ensures SaidOver(RomOf(nodes, rom, started, r), rom, Counting(Pairs(nodes), started), r)
  {
    hide SaidOver, RomOf, Pairs;
    if started {
      RomIsSaid(nodes, rom, r);
    } else {
      NotStarted(nodes, rom, r);
      NothingSaid(rom, r);
    }
  }

  lemma RomFields(nodes: seq<Node>, started: bool, r: Reading)
    ensures RomSays(RomOf(nodes, NewRom(r), started, r), nodes, started, r)
  {
    hide LastValue, RomOf, Pairs;
    RomOver(nodes, NewRom(r), started, r);
  }

  lemma NoValues()
    ensures forall key :: LastValue([], key) == None
  {
  }

  lemma {:induction false} NameIsSaid(nodes: seq<Node>, name: string, started: bool)
    ensures NameOf(nodes, name, started) == Or(LastValue(Counting(OwnPairs(nodes), started), "name"), name)
    decreases nodes
  {
    if nodes != [] {
      hide LastValue;
      var first, rest := nodes[0], nodes[1..];
      NoValues();
      match first {
        case Pair(k, v) => OneValue(k, v, "name");
        case Scope(_, children) => NameIsSaid(children, name, started);
      }
      NameIsSaid(rest, NameAfter(first, name, started), started);
      LastConcat(OwnPairsIn(first), OwnPairs(rest), "name");
    }
  }

  /** The nodes of each rom of a game, in order. */
  function RomScopes(nodes: seq<Node>): seq<seq<Node>>
    decreases nodes
  {
    if nodes == [] then [] else RomScopesIn(nodes[0]) + RomScopes(nodes[1..])
  }

  function RomScopesIn(node: Node): seq<seq<Node>>
    decreases node
  {
    match node case Pair(_, _) => [] case Scope(name, children) => if name == "rom" then [children] else RomScopes(children)
  }

  predicate RomsSay(roms: seq<Rom>, scopes: seq<seq<Node>>, started: bool, r: Reading) {
    |roms| == |scopes| && forall i :: 0 <= i < |roms| ==> RomSays(roms[i], scopes[i], started, r)
  }

  lemma {:induction false} RomsAreSaid(nodes: seq<Node>, started: bool, r: Reading)
    ensures RomsSay(RomsOf(nodes, started, r), RomScopes(nodes), started, r)
    decreases nodes
  {
    hide RomSays, RomOf;
    if nodes != [] {
      var first := nodes[0];
      if first.Scope? && first.name == "rom" {
        RomFields(first.children, started, r);
      } else if first.Scope? {
        RomsAreSaid(first.children, started, r);
      }
      RomsAreSaid(nodes[1..], started, r);
    }
  }

  /** A game: its name is the last one given outside of its roms, and its roms are its rom scopes. */
  predicate GameSays(game: Game, nodes: seq<Node>, started: bool, r: Reading) {
    game.name == Or(LastValue(Counting(OwnPairs(nodes), started), "name"), "") && RomsSay(game.roms, RomScopes(nodes), started, r)
  }

  /** The nodes of each game of a file, in order, and whether a `clrmamepro` scope has ended before it. */
  function GameScopes(nodes: seq<Node>, started: bool): seq<(seq<Node>, bool)>
    decreases nodes
  {
    if nodes == [] then [] else GameScopesIn(nodes[0], started) + GameScopes(nodes[1..], StartedAfter(nodes[0], started))
  }

  function GameScopesIn(node: Node, started: bool): seq<(seq<Node>, bool)>
    decreases node
  {
    match node
    case Pair(_, _) => []
    case Scope(name, children) => if name == "game" then [(children, started)] else GameScopes(children, started)
  }

  predicate GamesSay(games: seq<Game>, scopes: seq<(seq<Node>, bool)>, r: Reading) {
    |games| == |scopes| && forall i :: 0 <= i < |games| ==> GameSays(games[i], scopes[i].0, scopes[i].1, r)
  }

  /** Every field of every rom of every game is the value of the last pair with its key. */
  lemma {:induction false} GamesAreSaid(nodes: seq<Node>, started: bool, r: Reading)
    ensures GamesSay(GamesOf(nodes, started, r), GameScopes(nodes, started), r)
    decreases nodes
  {
    hide RomsSay, RomsOf, NameOf, LastValue, StartedAfter;
    if nodes != [] {
      var first := nodes[0];
      if first.Scope? && first.name == "game" {
        NameIsSaid(first.children, [], started);
        RomsAreSaid(first.children, started, r);
      } else if first.Scope? {
        GamesAreSaid(first.children, started, r);
      }
      GamesAreSaid(nodes[1..], StartedAfter(first, started), r);
    }
  }

  function Sizes(roms: seq<Rom>): nat
    decreases |roms|
  {
    if roms == [] then 0 else roms[0].size + Sizes(roms[1..])
  }

  function RomCount(games: seq<Game>): nat
    decreases |games|
  {
    if games == [] then 0 else |games[0].roms| + RomCount(games[1..])
  }

  function AllSizes(games: seq<Game>): nat
    decreases |games|
  {
    if games == [] then 0 else Sizes(games[0].roms) + AllSizes(games[1..])
  }

  // ---------------------------------------------------------------------------------------
  // The handlers compute what a tree means
  // ---------------------------------------------------------------------------------------

  lemma {:induction false} HandleConcat(d: Dat, a: seq<Event>, b: seq<Event>, r: Reading)
    ensures HandleAll(d, a + b, r) == HandleAll(HandleAll(d, a, r), b, r)
    decreases |a|
  {
    hide Handle;
    if a == [] {
      assert a + b == b;
    } else {
      assert (a + b)[1..] == a[1..] + b;
      HandleConcat(Handle(d, a[0], r), a[1..], b, r);
    }
  }

  lemma HandleOne(d: Dat, e: Event, r: Reading)
    ensures HandleAll(d, [e], r) == Handle(d, e, r)
  {
    hide Handle;
    var one := [e];
    assert one[1..] == [];
  }

  lemma HandleAround(d: Dat, name: string, inner: seq<Event>, rest: seq<Event>, r: Reading)
    ensures HandleAll(d, [OnScope(name, false)] + inner + [OnScope(name, true)] + rest, r)
         == HandleAll(HandleScope(HandleAll(HandleScope(d, name, false, r), inner, r), name, true, r), rest, r)
  {
    hide HandleAll, HandleScope;
    HandleConcat(d, [OnScope(name, false)] + inner + [OnScope(name, true)], rest, r);
    HandleConcat(d, [OnScope(name, false)] + inner, [OnScope(name, true)], r);
    HandleConcat(d, [OnScope(name, false)], inner, r);
    HandleOne(d, OnScope(name, false), r);
    HandleOne(HandleAll(HandleScope(d, name, false, r), inner, r), OnScope(name, true), r);
  }

  lemma {:induction false} HandleRom(d: Dat, nodes: seq<Node>, r: Reading)
    requires d.level.InRom? && RomShape(nodes)
    ensures HandleAll(d, TreeEvents(nodes), r) == d.(rom := RomOf(nodes, d.rom, d.started, r))
    ensures SaidOver(RomOf(nodes, d.rom, d.started, r), d.rom, Counting(Pairs(nodes), d.started), r)
    decreases nodes
  {
    RomOver(nodes, d.rom, d.started, r);
    if nodes != [] {
      hide SaidOver;
      var rest := nodes[1..];
      match nodes[0] {
        case Pair(k, v) =>
          HandleConcat(d, [OnPair(k, v)], TreeEvents(rest), r);
          HandleOne(d, OnPair(k, v), r);
          HandleRom(HandlePair(d, k, v, r), rest, r);
        case Scope(name, children) =>
          HandleAround(d, name, TreeEvents(children), TreeEvents(rest), r);
          HandleRom(d, children, r);
          HandleRom(d.(rom := RomOf(children, d.rom, d.started, r)), rest, r);
      }
    }
  }

  /** The game at hand with another name and more roms; what the rom at hand holds does not matter. */
  function WithRoms(d: Dat, name: string, roms: seq<Rom>, rom: Rom): Dat {
    d.(game := Game(name, d.game.roms + roms), rom := rom,
       count := d.count + |roms|, sizeInBytes := (d.sizeInBytes + Sizes(roms)) % SUM_BASE)
  }

  lemma {:induction false} SizesConcat(a: seq<Rom>, b: seq<Rom>)
    ensures Sizes(a + b) == Sizes(a) + Sizes(b)
    decreases |a|
  {
    if a == [] {
      assert a + b == b;
    } else {
      assert (a + b)[1..] == a[1..] + b;
      SizesConcat(a[1..], b);
    }
  }

  lemma ModuloTwice(a: nat, b: nat, c: nat)
    ensures (((a + b) % SUM_BASE) + c) % SUM_BASE == (a + (b + c)) % SUM_BASE
  {
  }

  lemma WithRomsTwice(d: Dat, n: string, a: seq<Rom>, x: Rom, m: string, b: seq<Rom>, y: Rom)
    ensures WithRoms(WithRoms(d, n, a, x), m, b, y) == WithRoms(d, m, a + b, y)
  {
    hide Sizes;
    SizesConcat(a, b);
    ModuloTwice(d.sizeInBytes, Sizes(a), Sizes(b));
    var once, twice := WithRoms(d, n, a, x), WithRoms(d, m, a + b, y);
    var both := WithRoms(once, m, b, y);
    assert both.game == twice.game && both.games == twice.games && both.rom == twice.rom;
    assert both.level == twice.level && both.started == twice.started;
    assert both.count == twice.count && both.sizeInBytes == twice.sizeInBytes;
    assert both == twice;
  }

  lemma OneRom(d: Dat, rom: Rom)
    ensures WithRoms(d, d.game.name, [rom], rom)
         == d.(count := d.count + 1, sizeInBytes := (d.sizeInBytes + rom.size) % SUM_BASE, game := d.game.(roms := d.game.roms + [rom]), rom := rom)
  {
    var one := [rom];
    assert one[1..] == [];
    assert Sizes(one) == rom.size;
    var a := WithRoms(d, d.game.name, one, rom);
    assert a.game == d.game.(roms := d.game.roms + one);
    assert a.sizeInBytes == (d.sizeInBytes + rom.size) % SUM_BASE && a.count == d.count + 1;
  }

  lemma NoRoms(d: Dat)
    requires d.sizeInBytes < SUM_BASE
    ensures WithRoms(d, d.game.name, [], d.rom) == d
  {
    assert d.game.roms + [] == d.game.roms;
  }

  /** What one node does to a game at hand. */
  lemma {:induction false} HandleGameNode(d: Dat, node: Node, r: Reading) returns (rom: Rom)
    requires d.level.InGame? && d.sizeInBytes < SUM_BASE && GameShape([node])
    ensures HandleAll(d, TreeEvents([node]), r) == WithRoms(d, NameAfter(node, d.game.name, d.started), RomsIn(node, d.started, r), rom)
    decreases node, 1
  {
    hide HandleAll, WithField;
    var nodes := [node];
    assert nodes[1..] == [] && TreeEvents([]) == [];
    match node {
      case Pair(k, v) =>
        assert TreeEvents(nodes) == [OnPair(k, v)];
        HandleOne(d, OnPair(k, v), r);
        rom := HandlePair(d, k, v, r).rom;
        NoRoms(HandlePair(d, k, v, r));
        assert d.game.roms + [] == d.game.roms;
      case Scope(name, children) =>
        var events := [OnScope(name, false)] + TreeEvents(children) + [OnScope(name, true)];
        assert TreeEvents(nodes) == events + [];
        HandleAround(d, name, TreeEvents(children), [], r);
        NothingHandled(HandleScope(HandleAll(HandleScope(d, name, false, r), TreeEvents(children), r), name, true, r), r);
        if name == "rom" {
          var begun := HandleScope(d, name, false, r);
          HandleRom(begun, children, r);
          rom := RomOf(children, NewRom(r), d.started, r);
          OneRom(d, rom);
        } else {
          rom := HandleGame(d, children, r);
        }
    }
  }

  lemma NothingHandled(d: Dat, r: Reading)
    ensures HandleAll(d, [], r) == d
  {
  }

  /** What the nodes inside a game do to the game. */
  lemma {:induction false} HandleGame(d: Dat, nodes: seq<Node>, r: Reading) returns (rom: Rom)
    requires d.level.InGame? && d.sizeInBytes < SUM_BASE && GameShape(nodes)
    ensures HandleAll(d, TreeEvents(nodes), r) == WithRoms(d, NameOf(nodes, d.game.name, d.started), RomsOf(nodes, d.started, r), rom)
    decreases nodes, 0
  {
    if nodes == [] {
      rom := d.rom;
      NoRoms(d);
      NothingHandled(d, r);
    } else {
      hide HandleAll, WithRoms, RomsIn, NameAfter;
      var first, rest := nodes[0], nodes[1..];
      FirstNode(nodes);
      HandleConcat(d, TreeEvents([first]), TreeEvents(rest), r);
      var x := HandleGameNode(d, first, r);
      var name, roms := NameAfter(first, d.game.name, d.started), RomsIn(first, d.started, r);
      var e := WithRoms(d, name, roms, x);
      StillInGame(d, name, roms, x);
      rom := HandleGame(e, rest, r);
      WithRomsTwice(d, name, roms, x, NameOf(rest, name, d.started), RomsOf(rest, d.started, r), rom);
    }
  }

  lemma StillInGame(d: Dat, name: string, roms: seq<Rom>, rom: Rom)
    ensures var e := WithRoms(d, name, roms, rom); e.level == d.level && e.started == d.started && e.game.name == name && e.sizeInBytes < SUM_BASE
  {
  }

  lemma FirstNode(nodes: seq<Node>)
    requires nodes != []
    ensures TreeEvents(nodes) == TreeEvents([nodes[0]]) + TreeEvents(nodes[1..])
    ensures GameShape(nodes) ==> GameShape([nodes[0]]) && GameShape(nodes[1..])
    ensures DatShape(nodes) ==> DatShape([nodes[0]]) && DatShape(nodes[1..])
  {
    var one := [nodes[0]];
    assert one[1..] == [] && TreeEvents([]) == [];
  }

  /** More games; what is at hand does not matter any more. */
  function WithGames(d: Dat, games: seq<Game>, started: bool, rom: Rom, game: Game): Dat {
    d.(games := d.games + games, started := started, rom := rom, game := game,
       count := d.count + RomCount(games), sizeInBytes := (d.sizeInBytes + AllSizes(games)) % SUM_BASE)
  }

  lemma {:induction false} CountsConcat(a: seq<Game>, b: seq<Game>)
    ensures RomCount(a + b) == RomCount(a) + RomCount(b) && AllSizes(a + b) == AllSizes(a) + AllSizes(b)
    decreases |a|
  {
    if a == [] {
      assert a + b == b;
    } else {
      assert (a + b)[1..] == a[1..] + b;
      CountsConcat(a[1..], b);
    }
  }

  lemma WithGamesTwice(d: Dat, a: seq<Game>, s: bool, x: Rom, g: Game, b: seq<Game>, t: bool, y: Rom, h: Game)
    ensures WithGames(WithGames(d, a, s, x, g), b, t, y, h) == WithGames(d, a + b, t, y, h)
  {
    hide RomCount, AllSizes;
    CountsConcat(a, b);
    ModuloTwice(d.sizeInBytes, AllSizes(a), AllSizes(b));
    var once, twice := WithGames(d, a, s, x, g), WithGames(d, a + b, t, y, h);
    var both := WithGames(once, b, t, y, h);
    assert both.games == twice.games && both.game == twice.game && both.rom == twice.rom;
    assert both.level == twice.level && both.started == twice.started;
    assert both.count == twice.count && both.sizeInBytes == twice.sizeInBytes;
    assert both == twice;
  }

  lemma NoGames(d: Dat, started: bool, rom: Rom)
    requires d.sizeInBytes < SUM_BASE
    ensures WithGames(d, [], started, rom, d.game) == d.(started := started, rom := rom)
  {
    assert d.games + [] == d.games;
  }

  /** A game read from start to end. */
  lemma OneGame(d: Dat, name: string, roms: seq<Rom>, rom: Rom, r: Reading)
    requires d.level.Root?
    ensures HandleScope(WithRoms(HandleScope(d, "game", false, r), name, roms, rom), "game", true, r)
         == WithGames(d, [Game(name, roms)], d.started, rom, Game(name, roms))
  {
    var one := [Game(name, roms)];
    assert one[1..] == [] && [] + roms == roms;
    assert RomCount(one) == |roms| && AllSizes(one) == Sizes(roms);
    var begun := HandleScope(d, "game", false, r);
    var a := WithRoms(begun, name, roms, rom);
    assert begun.game == Game([], []) && a.game == Game(name, roms);
    assert a.count == d.count + |roms| && a.sizeInBytes == (d.sizeInBytes + Sizes(roms)) % SUM_BASE;
    assert HandleScope(a, "game", true, r) == a.(games := d.games + one, level := Root);
  }

  lemma {:induction false} HandleDatNode(d: Dat, node: Node, r: Reading) returns (rom: Rom, game: Game)
    requires d.level.Root? && d.sizeInBytes < SUM_BASE && DatShape([node])
    ensures HandleAll(d, TreeEvents([node]), r) == WithGames(d, GamesIn(node, d.started, r), StartedAfter(node, d.started), rom, game)
    decreases node, 1
  {
    hide HandleAll, WithField;
    var nodes := [node];
    assert nodes[1..] == [] && TreeEvents([]) == [];
    match node {
      case Pair(k, v) =>
        assert TreeEvents(nodes) == [OnPair(k, v)];
        HandleOne(d, OnPair(k, v), r);
        rom, game := HandlePair(d, k, v, r).rom, d.game;
        NoGames(d, d.started, rom);
      case Scope(name, children) =>
        var events := [OnScope(name, false)] + TreeEvents(children) + [OnScope(name, true)];
        assert TreeEvents(nodes) == events + [];
        HandleAround(d, name, TreeEvents(children), [], r);
        NothingHandled(HandleScope(HandleAll(HandleScope(d, name, false, r), TreeEvents(children), r), name, true, r), r);
        rom, game := HandleDatScope(d, name, children, r);
    }
  }

  /** What a scope of a file does, between its start and its end. */
  lemma {:induction false} HandleDatScope(d: Dat, name: string, children: seq<Node>, r: Reading) returns (rom: Rom, game: Game)
    requires d.level.Root? && d.sizeInBytes < SUM_BASE && DatShape([Scope(name, children)])
    ensures HandleScope(HandleAll(HandleScope(d, name, false, r), TreeEvents(children), r), name, true, r)
         == WithGames(d, GamesIn(Scope(name, children), d.started, r), StartedAfter(Scope(name, children), d.started), rom, game)
    decreases children, 1
  {
    hide HandleAll;
    if name == "game" {
      hide WithRoms;
      rom := HandleGame(HandleScope(d, name, false, r), children, r);
      game := GameOf(children, d.started, r);
      OneGame(d, game.name, game.roms, rom, r);
    } else {
      hide HandleScope;
      UnknownScope(d, name, r);
      rom, game := HandleDat(d, children, r);
      UnknownScopeEnds(d, GamesOf(children, d.started, r), StartedBy(children, d.started), rom, game, name, r);
    }
  }

  lemma UnknownScope(d: Dat, name: string, r: Reading)
    requires name != "game" && name != "rom"
    ensures HandleScope(d, name, false, r) == d
  {
  }

  lemma UnknownScopeEnds(d: Dat, games: seq<Game>, started: bool, rom: Rom, game: Game, name: string, r: Reading)
    requires name != "game" && name != "rom"
    ensures HandleScope(WithGames(d, games, started, rom, game), name, true, r) == WithGames(d, games, started || name == "clrmamepro", rom, game)
  {
  }

  lemma StillAtRoot(d: Dat, games: seq<Game>, started: bool, rom: Rom, game: Game)
    ensures var e := WithGames(d, games, started, rom, game); e.level == d.level && e.started == started && e.sizeInBytes < SUM_BASE
  {
  }

  /** What the nodes of a file do to the result. */
  lemma {:induction false} HandleDat(d: Dat, nodes: seq<Node>, r: Reading) returns (rom: Rom, game: Game)
    requires d.level.Root? && d.sizeInBytes < SUM_BASE && DatShape(nodes)
    ensures HandleAll(d, TreeEvents(nodes), r) == WithGames(d, GamesOf(nodes, d.started, r), StartedBy(nodes, d.started), rom, game)
    decreases nodes, 0
  {
    if nodes == [] {
      rom, game := d.rom, d.game;
      NoGames(d, d.started, rom);
      NothingHandled(d, r);
    } else {
      hide HandleAll, WithGames, GamesIn, StartedAfter;
      var first, rest := nodes[0], nodes[1..];
      FirstNode(nodes);
      HandleConcat(d, TreeEvents([first]), TreeEvents(rest), r);
      var x, g := HandleDatNode(d, first, r);
      var games, started := GamesIn(first, d.started, r), StartedAfter(first, d.started);
      var e := WithGames(d, games, started, x, g);
      StillAtRoot(d, games, started, x, g);
      rom, game := HandleDat(e, rest, r);
      WithGamesTwice(d, games, started, x, g, GamesOf(rest, started, r), StartedBy(rest, started), rom, game);
    }
  }

  /** The reader before the first character; rom and game are whatever an earlier run left. */
  function Fresh(rom: Rom, game: Game): Dat {
    Dat(false, Root, rom, game, [], 0, 0)
  }

  /**
   Reading any text that spells a file: the games of the file, in order, and a count and a size
   that are the sums over them.
   */
  lemma ReadPrinted(nodes: seq<Node>, pieces: seq<Piece>, rom: Rom, game: Game, r: Reading)
    requires PiecesGood(pieces) && Atoms(nodes) && DatShape(nodes) && TokensOf(pieces) == TreeTokens(nodes)
    ensures var d := HandleAll(Fresh(rom, game), EventsOf(Text(pieces)).1, r);
            && d.games == GamesOf(nodes, false, r) && d.level.Root?
            && d.count == RomCount(d.games) && d.sizeInBytes == AllSizes(d.games) % SUM_BASE
            && GamesSay(d.games, GameScopes(nodes, false), r)
  {
    hide HandleAll, GamesOf, DatShape, Atoms, PiecesGood, GamesSay, GameScopes, RomCount, AllSizes, StartedBy,
         Text, TokensOf, TreeTokens, TreeEvents, PushAll;
    GamesAreSaid(nodes, false, r);
    ParsePrinted(nodes, pieces);
    var x, g := HandleDat(Fresh(rom, game), nodes, r);
    assert [] + GamesOf(nodes, false, r) == GamesOf(nodes, false, r);
  }

  // ---------------------------------------------------------------------------------------
  // Counting when scopes stand anywhere
  // ---------------------------------------------------------------------------------------

  /** What is known between two nodes: the size of the rom at hand, whether pairs count, the sizes of the roms of the game at hand. */
  datatype Hand = Hand(size: nat, started: bool, held: seq<nat>)

  /** Inside a scope, before its first node. */
  function Entered(name: string, h: Hand, r: Reading): Hand {
    if name == "rom" then h.(size := r.unset) else if name == "game" then h.(held := []) else h
  }

  /** Behind a scope, given what is known behind its last node. */
  function Left(name: string, h: Hand): Hand {
    if name == "rom" then h.(held := h.held + [h.size]) else if name == "clrmamepro" then h.(started := true) else h
  }

  function HandAfter(nodes: seq<Node>, h: Hand, r: Reading): Hand
    decreases nodes
  {
    if nodes == [] then h else HandAfter(nodes[1..], HandBehind(nodes[0], h, r), r)
  }

  function HandBehind(node: Node, h: Hand, r: Reading): Hand
    decreases node
  {
    match node
    case Pair(k, v) => if h.started && k == "size" then h.(size := r.decimal(v) % SIZE_BASE) else h
    case Scope(name, children) => Left(name, HandAfter(children, Entered(name, h, r), r))
  }

  /** The sizes of all rom scopes, wherever they stand, in the order in which they end. */
  function RomSizes(nodes: seq<Node>, h: Hand, r: Reading): seq<nat>
    decreases nodes
  {
    if nodes == [] then [] else RomSizesIn(nodes[0], h, r) + RomSizes(nodes[1..], HandBehind(nodes[0], h, r), r)
  }

  function RomSizesIn(node: Node, h: Hand, r: Reading): seq<nat>
    decreases node
  {
    match node
    case Pair(_, _) => []
    case Scope(name, children) =>
      RomSizes(children, Entered(name, h, r), r)
      + if name == "rom" then [HandAfter(children, Entered(name, h, r), r).size] else []
  }

  /**
   The sizes of the roms that are listed with games: at the end of each game scope, of the roms that
   have ended since the last start of a game.
   */
  function ListedSizes(nodes: seq<Node>, h: Hand, r: Reading): seq<nat>
    decreases nodes
  {
    if nodes == [] then [] else ListedSizesIn(nodes[0], h, r) + ListedSizes(nodes[1..], HandBehind(nodes[0], h, r), r)
  }

  function ListedSizesIn(node: Node, h: Hand, r: Reading): seq<nat>
    decreases node
  {
    match node
    case Pair(_, _) => []
    case Scope(name, children) =>
      ListedSizes(children, Entered(name, h, r), r)
      + if name == "game" then HandAfter(children, Entered(name, h, r), r).held else []
  }

  function SizesOf(roms: seq<Rom>): (sizes: seq<nat>)
    ensures |sizes| == |roms|
  {
    seq(|roms|, i requires 0 <= i < |roms| => roms[i].size)
  }

  function GameSizes(games: seq<Game>): seq<nat>
    decreases |games|
  {
    if games == [] then [] else SizesOf(games[0].roms) + GameSizes(games[1..])
  }

  function Sum(sizes: seq<nat>): nat
    decreases |sizes|
  {
    if sizes == [] then 0 else sizes[0] + Sum(sizes[1..])
  }

  lemma {:induction false} SumConcat(a: seq<nat>, b: seq<nat>)
    ensures Sum(a + b) == Sum(a) + Sum(b)
    decreases |a|
  {
    if a == [] {
      assert a + b == b;
    } else {
      assert (a + b)[1..] == a[1..] + b;
      SumConcat(a[1..], b);
    }
  }

  lemma {:induction false} SumOfSizes(roms: seq<Rom>)
    ensures Sum(SizesOf(roms)) == Sizes(roms)
    decreases |roms|
  {
    if roms != [] {
      SumOfSizes(roms[1..]);
      assert SizesOf(roms)[1..] == SizesOf(roms[1..]);
    }
  }

  lemma {:induction false} GameSizesAre(games: seq<Game>)
    ensures |GameSizes(games)| == RomCount(games) && Sum(GameSizes(games)) == AllSizes(games)
    decreases |games|
  {
    if games != [] {
      GameSizesAre(games[1..]);
      SumConcat(SizesOf(games[0].roms), GameSizes(games[1..]));
      SumOfSizes(games[0].roms);
    }
  }

  lemma {:induction false} GameSizesAppend(games: seq<Game>, game: Game)
    ensures GameSizes(games + [game]) == GameSizes(games) + SizesOf(game.roms)
    decreases |games|
  {
    if games == [] {
      var one := [game];
      assert games + one == one && one[1..] == [];
    } else {
      assert (games + [game])[1..] == games[1..] + [game];
      GameSizesAppend(games[1..], game);
    }
  }

  function HandOf(d: Dat): Hand {
    Hand(d.rom.size, d.started, SizesOf(d.game.roms))
  }

  /** What a run has added to the counts and to the games. */
  ghost predicate Moved(d: Dat, e: Dat, h: Hand, ended: seq<nat>, listed: seq<nat>) {
    && HandOf(e) == h && e.count == d.count + |ended| && e.sizeInBytes == (d.sizeInBytes + Sum(ended)) % SUM_BASE
    && GameSizes(e.games) == GameSizes(d.games) + listed
  }

  lemma MovedNowhere(d: Dat)
    requires d.sizeInBytes < SUM_BASE
    ensures Moved(d, d, HandOf(d), [], [])
  {
    assert GameSizes(d.games) + [] == GameSizes(d.games);
  }

  lemma MovedTwice(d: Dat, e: Dat, f: Dat, h: Hand, k: Hand, a: seq<nat>, b: seq<nat>, x: seq<nat>, y: seq<nat>)
    requires Moved(d, e, h, a, x) && Moved(e, f, k, b, y)
    ensures Moved(d, f, k, a + b, x + y)
  {
    hide HandOf, GameSizes, Sum;
    SumConcat(a, b);
    ModuloTwice(d.sizeInBytes, Sum(a), Sum(b));
    assert (GameSizes(d.games) + x) + y == GameSizes(d.games) + (x + y);
  }

  lemma EntersScope(d: Dat, name: string, r: Reading)
    requires d.sizeInBytes < SUM_BASE
    ensures Moved(d, HandleScope(d, name, false, r), Entered(name, HandOf(d), r), [], [])
  {
    assert GameSizes(d.games) + [] == GameSizes(d.games);
    assert SizesOf([]) == [];
  }

  lemma LeavesScope(d: Dat, name: string, r: Reading)
    requires d.sizeInBytes < SUM_BASE
    ensures var h := HandOf(d);
            Moved(d, HandleScope(d, name, true, r), Left(name, h), if name == "rom" then [h.size] else [], if name == "game" then h.held else [])
  {
    var h := HandOf(d);
    if name == "rom" {
      RomLeft(d, r);
    } else if name == "game" {
      GameSizesAppend(d.games, d.game);
    } else {
      assert GameSizes(d.games) + [] == GameSizes(d.games);
    }
  }

  lemma RomLeft(d: Dat, r: Reading)
    requires d.sizeInBytes < SUM_BASE
    ensures var h := HandOf(d); Moved(d, HandleScope(d, "rom", true, r), Left("rom", h), [h.size], [])
  {
    hide GameSizes;
    var e := HandleScope(d, "rom", true, r);
    var one := [d.rom.size];
    assert one[1..] == [] && Sum(one) == d.rom.size;
    assert SizesOf(d.game.roms + [d.rom]) == SizesOf(d.game.roms) + [d.rom.size];
    assert GameSizes(d.games) + [] == GameSizes(d.games);
  }

  lemma PairMoves(d: Dat, k: string, v: string, r: Reading)
    requires d.sizeInBytes < SUM_BASE
    ensures Moved(d, HandlePair(d, k, v, r), HandBehind(Pair(k, v), HandOf(d), r), [], [])
  {
    assert GameSizes(d.games) + [] == GameSizes(d.games);
  }

  lemma {:induction false} NodeMoves(d: Dat, node: Node, r: Reading)
    requires d.sizeInBytes < SUM_BASE
    ensures var e, h := HandleAll(d, TreeEvents([node]), r), HandOf(d);
            Moved(d, e, HandBehind(node, h, r), RomSizesIn(node, h, r), ListedSizesIn(node, h, r))
    decreases node, 1
  {
    hide HandleAll, HandOf, Moved, HandlePair, HandleScope, Entered, Left;
    var nodes := [node];
    assert nodes[1..] == [] && TreeEvents([]) == [];
    match node {
      case Pair(k, v) =>
        assert TreeEvents(nodes) == [OnPair(k, v)];
        HandleOne(d, OnPair(k, v), r);
        PairMoves(d, k, v, r);
      case Scope(name, children) =>
        assert TreeEvents(nodes) == [OnScope(name, false)] + TreeEvents(children) + [OnScope(name, true)] + [];
        HandleAround(d, name, TreeEvents(children), [], r);
        var begun := HandleScope(d, name, false, r);
        var inside := HandleAll(begun, TreeEvents(children), r);
        NothingHandled(HandleScope(inside, name, true, r), r);
        EntersScope(d, name, r);
        MovedSum(d, begun, Entered(name, HandOf(d), r), [], []);
        TreeMoves(begun, children, r);
        var h := Entered(name, HandOf(d), r);
        MovedTwice(d, begun, inside, h, HandAfter(children, h, r), [], RomSizes(children, h, r), [], ListedSizes(children, h, r));
        MovedSum(begun, inside, HandAfter(children, h, r), RomSizes(children, h, r), ListedSizes(children, h, r));
        LeavesScope(inside, name, r);
        var a, x := RomSizes(children, h, r), ListedSizes(children, h, r);
        assert [] + a == a && [] + x == x;
        MovedTwice(d, inside, HandleScope(inside, name, true, r), HandAfter(children, h, r), Left(name, HandAfter(children, h, r)),
                   a, if name == "rom" then [HandAfter(children, h, r).size] else [],
                   x, if name == "game" then HandAfter(children, h, r).held else []);
    }
  }

  lemma MovedSum(d: Dat, e: Dat, h: Hand, ended: seq<nat>, listed: seq<nat>)
    requires Moved(d, e, h, ended, listed)
    ensures e.sizeInBytes < SUM_BASE && HandOf(e) == h
  {
  }

  /** What the nodes of any tree do to the counts and to the games. */
  lemma {:induction false} TreeMoves(d: Dat, nodes: seq<Node>, r: Reading)
    requires d.sizeInBytes < SUM_BASE
    ensures var e, h := HandleAll(d, TreeEvents(nodes), r), HandOf(d);
            Moved(d, e, HandAfter(nodes, h, r), RomSizes(nodes, h, r), ListedSizes(nodes, h, r))
    decreases nodes, 0
  {
    if nodes == [] {
      NothingHandled(d, r);
      MovedNowhere(d);
    } else {
      hide HandleAll, HandOf, Moved, HandBehind, RomSizesIn, ListedSizesIn;
      var first, rest, h := nodes[0], nodes[1..], HandOf(d);
      FirstNode(nodes);
      HandleConcat(d, TreeEvents([first]), TreeEvents(rest), r);
      var e := HandleAll(d, TreeEvents([first]), r);
      NodeMoves(d, first, r);
      MovedSum(d, e, HandBehind(first, h, r), RomSizesIn(first, h, r), ListedSizesIn(first, h, r));
      TreeMoves(e, rest, r);
      var k := HandBehind(first, h, r);
      MovedTwice(d, e, HandleAll(e, TreeEvents(rest), r), k, HandAfter(rest, k, r),
                 RomSizesIn(first, h, r), RomSizes(rest, k, r), ListedSizesIn(first, h, r), ListedSizes(rest, k, r));
    }
  }

  /** What is known before the first node; rom and game are whatever an earlier run left. */
  function FirstHand(rom: Rom, game: Game): Hand {
    Hand(rom.size, false, SizesOf(game.roms))
  }

  /**
   Reading any text that spells a tree, its scopes standing anywhere: the count and the size are those
   of all rom scopes of the tree, and what the games list are the roms that end in a game with no
   start of a game behind them. So the count is that of the listed roms exactly when the tree has as
   many of these as of those; and the size likewise.
   */
  lemma CountsExactly(nodes: seq<Node>, pieces: seq<Piece>, rom: Rom, game: Game, r: Reading)
    requires PiecesGood(pieces) && Atoms(nodes) && TokensOf(pieces) == TreeTokens(nodes)
    ensures var d, h := HandleAll(Fresh(rom, game), EventsOf(Text(pieces)).1, r), FirstHand(rom, game);
            && d.count == |RomSizes(nodes, h, r)| && d.sizeInBytes == Sum(RomSizes(nodes, h, r)) % SUM_BASE
            && RomCount(d.games) == |ListedSizes(nodes, h, r)| && AllSizes(d.games) == Sum(ListedSizes(nodes, h, r))
            && (d.count == RomCount(d.games) <==> |RomSizes(nodes, h, r)| == |ListedSizes(nodes, h, r)|)
            && (d.sizeInBytes == AllSizes(d.games) % SUM_BASE
                <==> Sum(RomSizes(nodes, h, r)) % SUM_BASE == Sum(ListedSizes(nodes, h, r)) % SUM_BASE)
  {
    hide HandleAll, PiecesGood, Atoms, RomSizes, ListedSizes, HandAfter, GameSizes, Sum;
    ParsePrinted(nodes, pieces);
    var start := Fresh(rom, game);
    TreeMoves(start, nodes, r);
    var d := HandleAll(start, TreeEvents(nodes), r);
    NoGameSizes();
    GameSizesAre(d.games);
    assert GameSizes(d.games) == [] + ListedSizes(nodes, FirstHand(rom, game), r) == ListedSizes(nodes, FirstHand(rom, game), r);
  }

  lemma NoGameSizes()
    ensures GameSizes([]) == []
  {
  }

  /** A rom outside of every game is counted, and no game has it. */
  lemma StrayRom(rom: Rom, game: Game, r: Reading)
    ensures var nodes := [Scope("rom", [])];
            Atoms(nodes) && !DatShape(nodes) && TreeEvents(nodes) == [OnScope("rom", false), OnScope("rom", true)]
            && var d := HandleAll(Fresh(rom, game), TreeEvents(nodes), r);
               d.count == 1 && d.games == [] && RomCount(d.games) == 0
  {
    var none: seq<Node> := [];
    var nodes := [Scope("rom", none)];
    assert nodes[1..] == none && TreeEvents(none) == [];
    assert TreeEvents(nodes) == [OnScope("rom", false), OnScope("rom", true)];
    var begun := Handle(Fresh(rom, game), OnScope("rom", false), r);
    HandleConcat(Fresh(rom, game), [OnScope("rom", false)], [OnScope("rom", true)], r);
    HandleOne(Fresh(rom, game), OnScope("rom", false), r);
    HandleOne(begun, OnScope("rom", true), r);
    assert [OnScope("rom", false)] + [OnScope("rom", true)] == TreeEvents(nodes);
  }

  // ---------------------------------------------------------------------------------------
  // The three objects
  // ---------------------------------------------------------------------------------------

  /** `ClrMameProParser` */
  class DatHandler {
    var started: bool
    var level: Level
    var rom: Rom
    var game: Game
    var games: seq<Game>
    var count: nat
    var sizeInBytes: nat

    ghost function Model(): Dat
      reads this
    {
      Dat(started, level, rom, game, games, count, sizeInBytes)
    }

    constructor (rom: Rom, game: Game)
      ensures Model() == Fresh(rom, game)
    {
      started, level, this.rom, this.game := false, Root, rom, game;
      games, count, sizeInBytes := [], 0, 0;
    }

    method OnPair(k: string, v: string, r: Reading)
      modifies this
      ensures Model() == HandlePair(old(Model()), k, v, r)
      ensures !started ==> Model() == old(Model())
      ensures started ==>
                && rom.crc32 == (if k == "crc" then Some(v) else old(rom.crc32)) && rom.md5 == (if k == "md5" then Some(v) else old(rom.md5))
                && rom.sha1 == (if k == "sha1" then Some(v) else old(rom.sha1))
                && rom.size == (if k == "size" then r.decimal(v) % SIZE_BASE else old(rom.size))
                && rom.name == (if k == "name" && level.InRom? then v else old(rom.name))
                && game.name == (if k == "name" && level.InGame? then v else old(game.name))
    {
      if !started {
        return;
      }
      if k == "name" {
        if level.InRom? {
          rom := rom.(name := v);
        } else if level.InGame? {
          game := game.(name := v);
        }
      } else if k == "size" {
        rom := rom.(size := r.decimal(v) % SIZE_BASE, sizeEnabled := true);
      } else if k == "crc" {
        rom := rom.(crc32 := Some(v));
      } else if k == "md5" {
        rom := rom.(md5 := Some(v));
      } else if k == "sha1" {
        rom := rom.(sha1 := Some(v));
      }
    }

    method OnScope(k: string, isEnd: bool, r: Reading)
      modifies this
      ensures Model() == HandleScope(old(Model()), k, isEnd, r)
    {
      if k == "rom" {
        if isEnd {
          count := count + 1;
          sizeInBytes := (sizeInBytes + rom.size) % SUM_BASE;
          game := game.(roms := game.roms + [rom]);
          level := InGame;
        } else {
          level := InRom;
          rom := NewRom(r);
        }
      } else if k == "game" {
        if isEnd {
          games := games + [game];
          level := Root;
        } else {
          level := InGame;
          game := Game([], []);
        }
      } else if isEnd && k == "clrmamepro" {
        started := true;
      }
    }
  }

  /** `SimpleTreeParser` */
  class TreeParser {
    const handler: DatHandler
    var tokens: seq<string>
    var partial: bool
    var crashed: bool

    ghost function Model(): Pusher
      reads this
    {
      Pusher(tokens, partial, crashed)
    }

    constructor (handler: DatHandler)
      ensures this.handler == handler && Model() == Waiting([])
    {
      this.handler := handler;
      tokens, partial, crashed := [], false, false;
    }

    /** A token; reading past the stack is undefined in the original and marked here. */
    method Token(token: string, r: Reading)
      modifies this, handler
      ensures Model() == Push(old(Model()), token).0
      ensures handler.Model() == HandleAll(old(handler.Model()), Push(old(Model()), token).1, r)
    {
      hide HandlePair, HandleScope;
      if crashed {
        return;
      }
      var wasPartial := partial;
      var isScope := token == "(" || token == ")";
      if tokens == [] && (isScope || wasPartial) {
        crashed := true;
        return;
      }
      if !isScope {
        tokens := tokens + [token];
      }
      if !partial {
        partial := true;
      }
      if token == "(" {
        partial := false;
        HandleOne(handler.Model(), Event.OnScope(Last(tokens), false), r);
        handler.OnScope(Last(tokens), false, r);
      } else if token == ")" {
        partial := false;
        HandleOne(handler.Model(), Event.OnScope(Last(tokens), true), r);
        handler.OnScope(Last(tokens), true, r);
        tokens := Front(tokens);
      } else if wasPartial {
        var value := Last(tokens);
        tokens := Front(tokens);
        assert tokens == old(tokens);
        var key := Last(tokens);
        tokens := Front(tokens);
        HandleOne(handler.Model(), Event.OnPair(key, value), r);
        handler.OnPair(key, value, r);
        partial := false;
      }
    }
  }

  /** `SimpleParser` */
  class Tokenizer {
    const tree: TreeParser
    const input: string
    var sb: string
    var quote: bool
    var position: nat
    var line: nat
    var column: nat

    constructor (input: string, tree: TreeParser)
      ensures this.tree == tree && this.input == input && sb == [] && !quote
    {
      this.input, this.tree := input, tree;
      sb, quote, position, line, column := [], false, 0, 0, 0;
    }

    /** Where the tree parser and the handler get with some more tokens. */
    ghost function Reached(r: Reading, more: seq<string>): (Pusher, Dat)
      reads tree, tree.handler
    {
      var (p, fired) := PushAll(tree.Model(), more);
      (p, HandleAll(tree.handler.Model(), fired, r))
    }

    /** The callback with a token; `rest` is what will still come. */
    method Deliver(token: string, r: Reading, ghost rest: seq<string>)
      modifies tree, tree.handler
      ensures Reached(r, rest) == old(Reached(r, [token] + rest))
    {
      hide PushAll, HandleAll, Push;
      ghost var p, d := tree.Model(), tree.handler.Model();
      tree.Token(token, r);
      PushConcat(p, [token], rest);
      PushOne(p, token);
      HandleConcat(d, Push(p, token).1, PushAll(Push(p, token).0, rest).1, r);
    }

    method Emit(r: Reading, ghost rest: seq<string>)
      modifies this`sb, tree, tree.handler
      ensures sb == [] && Reached(r, rest) == old(Reached(r, Emitted(sb) + rest))
    {
      hide PushAll, HandleAll;
      if sb != [] {
        var token := sb;
        sb := [];
        Deliver(token, r, rest);
      } else {
        assert [] + rest == rest;
      }
    }

    /** One character. */
    method Character(c: char, r: Reading, ghost rest: seq<string>)
      modifies this`sb, this`quote, tree, tree.handler
      ensures Lexer(sb, quote) == Lex(old(Lexer(sb, quote)), c).0
      ensures Reached(r, rest) == old(Reached(r, Lex(Lexer(sb, quote), c).1 + rest))
    {
      hide PushAll, HandleAll, Emitted, KindOf, Reached;
      var kind := KindOf(c);
      if kind.Whitespace? && !quote {
        Emit(r, rest);
      } else if kind.Quote? {
        if quote {
          Emit(r, rest);
          quote := false;
        } else {
          quote := true;
          assert [] + rest == rest;
        }
      } else if !quote && kind.Single? {
        assert Emitted(sb) + ([[c]] + rest) == (Emitted(sb) + [[c]]) + rest;
        Emit(r, [[c]] + rest);
        Deliver([c], r, rest);
      } else {
        sb := sb + [c];
        assert [] + rest == rest;
      }
    }

    /**
     `parse`: every character is looked at once, the tokens of the whole text go to the tree
     parser, and line and column are those of the end of the text.
     */
    method Parse(r: Reading)
      requires sb == [] && !quote
      modifies this, tree, tree.handler
      ensures Reached(r, []) == old(Reached(r, Tokenize(input)))
      ensures line == Lines(input) && column == Column(input)
    {
      hide PushAll, HandleAll, Lex, Reached, Lines, Column, Tokens;
      StartPosition();
      column, line, position := 0, 0, 0;
      assert input[0..] == input && input[..0] == [];
      while position < |input|
        invariant position <= |input|
        invariant Reached(r, Tokens(Lexer(sb, quote), input[position..])) == old(Reached(r, Tokenize(input)))
        invariant line == Lines(input[..position]) && column == Column(input[..position])
      {
        var c := input[position];
        LexNext(Lexer(sb, quote), input, position);
        ghost var next := Lex(Lexer(sb, quote), c).0;
        NextPosition(input, position);
        position := position + 1;
        if c == '\n' {
          line := line + 1;
          column := 0;
        } else {
          column := column + 1;
        }
        Character(c, r, Tokens(next, input[position..]));
      }
      assert input[position..] == [] && input[..position] == input;
      LastTokens(Lexer(sb, quote));
      Emit(r, []);
    }
  }

  lemma StartPosition()
    ensures Lines([]) == 0 && Column([]) == 0
  {
  }

  lemma NextPosition(text: string, i: nat)
    requires i < |text|
    ensures Lines(text[..i + 1]) == Lines(text[..i]) + (if text[i] == '\n' then 1 else 0)
    ensures Column(text[..i + 1]) == if text[i] == '\n' then 0 else Column(text[..i]) + 1
  {
    assert text[..i + 1][..i] == text[..i];
  }

  lemma LexNext(l: Lexer, text: string, i: nat)
    requires i < |text|
    ensures Tokens(l, text[i..]) == Lex(l, text[i]).1 + Tokens(Lex(l, text[i]).0, text[i + 1..])
  {
    hide Lex;
    assert text[i..][1..] == text[i + 1..];
  }

  lemma LastTokens(l: Lexer)
    ensures Tokens(l, []) == Emitted(l.sb) + []
  {
  }

  /** Ends of lines. */
  function Lines(text: string): nat
    decreases |text|
  {
    if text == [] then 0 else Lines(text[..|text| - 1]) + if text[|text| - 1] == '\n' then 1 else 0
  }

  /** Characters since the last end of a line. */
  function Column(text: string): nat
    decreases |text|
  {
    if text == [] || text[|text| - 1] == '\n' then 0 else Column(text[..|text| - 1]) + 1
  }

  /** Reading a whole text with three new objects. */
  method ReadText(text: string, rom: Rom, game: Game, r: Reading) returns (handler: DatHandler, ghost parser: Pusher)
    ensures fresh(handler) && parser == EventsOf(text).0 && handler.Model() == HandleAll(Fresh(rom, game), EventsOf(text).1, r)
  {
    hide PushAll, HandleAll, Tokenize;
    handler := new DatHandler(rom, game);
    var tree := new TreeParser(handler);
    var tokenizer := new Tokenizer(text, tree);
    tokenizer.Parse(r);
    PushNothing(tree.Model());
    NothingHandled(handler.Model(), r);
    parser := tree.Model();
  }
}
