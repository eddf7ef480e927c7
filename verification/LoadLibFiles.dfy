/**
 Whole files of loadlib directives, and the limits of the parser: what a line longer than the buffer
 becomes, and exactly which words the stripper and the tokenizer read alike.
 */
module LoadLibFiles {
  import opened LoadLib
  import opened LoadLibGrammar

  // ----- files as printed -----

  /** One line of a file: no NUL, no newline, and it fits the line buffer, if need be without its newline. */
  ghost predicate Printable(w: Written) {
    WellFormed(w) && '\n' !in Render(w) && NUL !in Render(w) && |Render(w)| < LINE
  }

  /** A line of a file: a directive as written, or anything else. */
  datatype Item = Ours(w: Written) | Other(text: seq<char>)

  /** A text that fits the line buffer, is one line, and does not start with the word loadlib; a NUL hides what follows it. */
  ghost predicate NotOurs(text: seq<char>) {
    '\n' !in text && |text| < LINE && forall u :: IsCore(Strip(UpToNul(text), false, false), u) ==> !HasWord(u)
  }

  ghost predicate ItemOk(i: Item) {
    match i
    case Ours(w) => Printable(w)
    case Other(text) => NotOurs(text)
  }

  function ItemText(i: Item): seq<char> {
    if i.Ours? then Render(i.w) else i.text
  }

  function RenderAll(items: seq<Item>): seq<char> {
    if items == [] then [] else ItemText(items[0]) + ("\n" + RenderAll(items[1..]))
  }

  /** What one directive says. */
  ghost function Meaning(w: Written): Line {
    if Good(w) then Directive(w.path, Args(w)) else Rejected
  }

  /** What the file says: its directives in order, up to the first that is not good, and nothing else. */
  ghost function Expected(items: seq<Item>, resolve: Policy): Outcome {
    if items == [] then Outcome(true, [])
    else
      var rest := Expected(items[1..], resolve);
      if items[0].Ours? then Then(Meaning(items[0].w), rest, resolve) else rest
  }

  lemma {:induction false} TakeLineStops(x: seq<char>, y: seq<char>, room: nat)
    requires '\n' !in x && |x| < room
    ensures TakeLine(x + ("\n" + y), room) == |x| + 1
  {
    var s := x + ("\n" + y);
    if x != [] {
      TakeLineStops(x[1..], y, room - 1);
      assert s[1..] == x[1..] + ("\n" + y);
    }
  }

  /** Without a newline in reach, fgets stops when the buffer is full. */
  lemma {:induction false} TakeLineFills(x: seq<char>, y: seq<char>)
    requires '\n' !in x
    ensures TakeLine(x + y, |x|) == |x|
  {
    if x != [] {
      TakeLineFills(x[1..], y);
      assert (x + y)[0] == x[0] && (x + y)[1..] == x[1..] + y && x[0] in x;
    }
  }

  /** The newline at the end of a line belongs to its comment, or to the spaces before. */
  function WithNewline(w: Written): Written {
    if w.comment == [] then w.(tail := w.tail + "\n") else w.(comment := w.comment + "\n")
  }

  lemma NewlineRenders(w: Written)
    requires WellFormed(w)
    ensures WellFormed(WithNewline(w)) && Render(WithNewline(w)) == Render(w) + "\n"
  {
    var v := WithNewline(w);
    assert v.tail + v.comment == (w.tail + w.comment) + "\n";
    ArgumentsRest(w, (w.tail + w.comment) + "\n");
    ArgumentsRest(w, w.tail + w.comment);
  }

  lemma WholeText(s: seq<char>)
    requires NUL !in s
    ensures UpToNul(s) == s
  {
    assert s[..|s|] == s;
    UpToNulIs(s, |s|);
  }

  lemma WholeLine(w: Written)
    requires Printable(w)
    ensures ParseText(UpToNul(Render(w) + "\n")) == Meaning(w) == ParseText(UpToNul(Render(w)))
  {
    WholeText(Render(w) + "\n");
    WholeText(Render(w));
    NewlineRenders(w);
    LineRoundTrip(WithNewline(w));
    LineRoundTrip(w);
  }

  /** An empty line is skipped. */
  lemma EmptyLine(rest: seq<char>, resolve: Policy)
    ensures Config("\n" + rest, resolve) == Config(rest, resolve)
  {
    var file, line := "\n" + rest, "\n";
    assert [] + ("\n" + rest) == file;
    TakeLineStops([], rest, LINE - 1);
    assert file[..1] == line && file[1..] == rest;
    WholeText(line);
    StripPlain(line, []);
    assert line + [] == line && line[1..] == [];
    assert TrimLeft(line) == TrimLeft(line[1..]);
  }

  /** fgets cuts a file after its first line, which gives its directive. */
  lemma ShortLine(w: Written, rest: seq<char>, resolve: Policy)
    requires Printable(w) && |Render(w)| < LINE - 1
    ensures Config(Render(w) + ("\n" + rest), resolve) == Then(Meaning(w), Config(rest, resolve), resolve)
  {
    var file, line := Render(w) + ("\n" + rest), Render(w) + "\n";
    TakeLineStops(Render(w), rest, LINE - 1);
    assert file[..|line|] == line && file[|line|..] == rest;
    WholeLine(w);
  }

  /** A line that fills the buffer leaves its newline for an empty line. */
  lemma FullLine(w: Written, rest: seq<char>, resolve: Policy)
    requires Printable(w) && |Render(w)| == LINE - 1
    ensures Config(Render(w) + ("\n" + rest), resolve) == Then(Meaning(w), Config(rest, resolve), resolve)
  {
    LongLine(Render(w), "\n" + rest, resolve);
    WholeLine(w);
    EmptyLine(rest, resolve);
  }

  // ----- lines of other parts of the configuration -----

  lemma CoreOf(t: seq<char>)
    ensures IsCore(t, TrimRight(TrimLeft(t)))
  {
    TrimIsCore(t, TrimRight(TrimLeft(t)));
  }

  /** A newline behind a text changes nothing but its spaces. */
  lemma NewlineCore(t: seq<char>, u: seq<char>)
    requires IsCore(t, u)
    ensures IsCore(t + "\n", u)
  {
    var lead, tail :| Spaces(lead) && Spaces(tail) && t == lead + (u + tail) && (u == [] || (!IsSpace(u[0]) && !IsSpace(u[|u| - 1])));
    assert t + "\n" == lead + (u + (tail + "\n")) && Spaces(tail + "\n");
  }

  lemma NewlineStrip(t: seq<char>)
    ensures Strip(t + "\n", false, false) == Strip(t, false, false) || Strip(t + "\n", false, false) == Strip(t, false, false) + "\n"
  {
    var f := Scan(t, false, false);
    if f.stopped {
      StripStops(t, "\n", false, false);
    } else {
      StripThrough(t, "\n", false, false);
      StripThrough(t, [], false, false);
      assert t + [] == t && "\n"[1..] == [];
    }
  }

  lemma NewlineSkips(t: seq<char>)
    requires forall u :: IsCore(Strip(t, false, false), u) ==> !HasWord(u)
    ensures ParseText(t) == Skipped == ParseText(t + "\n")
  {
    var x := Strip(t, false, false);
    var u := TrimRight(TrimLeft(x));
    CoreOf(x);
    NewlineCore(x, u);
    NewlineStrip(t);
    LineMeans(t, u, [], []);
    LineMeans(t + "\n", u, [], []);
  }

  lemma {:induction false} UpToNulJoin(x: seq<char>, y: seq<char>)
    ensures UpToNul(x + y) == if NUL in x then UpToNul(x) else x + UpToNul(y)
  {
    if x == [] {
      assert x + y == y;
    } else {
      assert (x + y)[0] == x[0] && (x + y)[1..] == x[1..] + y;
      UpToNulJoin(x[1..], y);
      assert x == [x[0]] + x[1..];
    }
  }

  lemma OtherText(line: seq<char>)
    requires NotOurs(line)
    ensures ParseText(UpToNul(line)) == Skipped == ParseText(UpToNul(line + "\n"))
  {
    NewlineSkips(UpToNul(line));
    NewlineText(line);
  }

  lemma NewlineText(line: seq<char>)
    ensures UpToNul(line + "\n") == UpToNul(line) || UpToNul(line + "\n") == UpToNul(line) + "\n"
  {
    var nl := "\n";
    UpToNulJoin(line, nl);
    if NUL !in line {
      WholeText(line);
      WholeText(nl);
    }
  }

  /** Every line that does not start with the word is passed over. */
  lemma OtherLine(line: seq<char>, rest: seq<char>, resolve: Policy)
    requires NotOurs(line)
    ensures Config(line + ("\n" + rest), resolve) == Config(rest, resolve)
  {
    OtherText(line);
    var file := line + ("\n" + rest);
    if |line| < LINE - 1 {
      TakeLineStops(line, rest, LINE - 1);
      assert file[..|line| + 1] == line + "\n" && file[|line| + 1..] == rest;
    } else {
      LongLine(line, "\n" + rest, resolve);
      EmptyLine(rest, resolve);
    }
  }

  lemma DirectiveLine(w: Written, rest: seq<char>, resolve: Policy)
    requires Printable(w)
    ensures Config(Render(w) + ("\n" + rest), resolve) == Then(Meaning(w), Config(rest, resolve), resolve)
  {
    if |Render(w)| < LINE - 1 { ShortLine(w, rest, resolve); } else { FullLine(w, rest, resolve); }
  }

  /** In every file of rendered directives and other lines, the directives are read back in order and the rest is passed over. */
  lemma {:induction false} FileRoundTrip(items: seq<Item>, resolve: Policy)
    requires forall i :: i in items ==> ItemOk(i)
    ensures Config(RenderAll(items), resolve) == Expected(items, resolve)
  {
    if items != [] {
      assert items[0] in items;
      var rest := RenderAll(items[1..]);
      if items[0].Ours? { DirectiveLine(items[0].w, rest, resolve); } else { OtherLine(items[0].text, rest, resolve); }
      FileRoundTrip(items[1..], resolve);
    }
  }

  /** The line does not stop the parser: it is not a directive, or one whose strings fit and whose path may be loaded. */
  ghost predicate Passes(i: Item, resolve: Policy) {
    i.Other? || (0 < |i.w.path| < FIELD && |Args(i.w)| < FIELD && resolve(i.w.path).Some?)
  }

  ghost predicate AllPass(items: seq<Item>, resolve: Policy) {
    forall k :: 0 <= k < |items| ==> Passes(items[k], resolve)
  }

  /** The libraries that lines name, in order. */
  ghost function Libs(items: seq<Item>, resolve: Policy): seq<Lib>
    requires AllPass(items, resolve)
  {
    if items == [] then [] else LibsOf(items[0], resolve) + Libs(items[1..], resolve)
  }

  ghost function LibsOf(i: Item, resolve: Policy): seq<Lib>
    requires Passes(i, resolve)
  {
    if i.Ours? then [Lib(resolve(i.w.path).value, Args(i.w))] else []
  }

  lemma ItemLine(i: Item, rest: seq<char>, resolve: Policy)
    requires ItemOk(i)
    ensures Passes(i, resolve) ==>
              var o := Config(rest, resolve); Config(ItemText(i) + ("\n" + rest), resolve) == Outcome(o.ok, LibsOf(i, resolve) + o.libs)
    ensures !Passes(i, resolve) ==> Config(ItemText(i) + ("\n" + rest), resolve) == Outcome(false, [])
  {
    if i.Ours? {
      DirectiveLine(i.w, rest, resolve);
    } else {
      OtherLine(i.text, rest, resolve);
      assert [] + Config(rest, resolve).libs == Config(rest, resolve).libs;
    }
  }

  /** The file loads the libraries of the lines before the first that fails, and succeeds exactly if none does. */
  lemma {:induction false} FileLoads(items: seq<Item>, k: nat, resolve: Policy)
    requires (forall i :: i in items ==> ItemOk(i)) && k <= |items|
    requires AllPass(items[..k], resolve) && (k < |items| ==> !Passes(items[k], resolve))
    ensures Config(RenderAll(items), resolve) == Outcome(k == |items|, Libs(items[..k], resolve))
    decreases k
  {
    if items != [] {
      var first, rest := items[0], items[1..];
      assert first in items;
      ItemLine(first, RenderAll(rest), resolve);
      if k > 0 {
        assert items[..k][0] == first && rest[..k - 1] == items[..k][1..];
        FileLoads(rest, k - 1, resolve);
      }
    }
  }

  // ----- lines longer than the buffer -----

  /** The first LINE - 1 characters are a line of their own, and what follows them is read as a fresh line. */
  lemma LongLine(x: seq<char>, y: seq<char>, resolve: Policy)
    requires '\n' !in x && |x| == LINE - 1
    ensures Config(x + y, resolve) == Then(ParseText(UpToNul(x)), Config(y, resolve), resolve)
  {
    TakeLineFills(x, y);
    assert (x + y)[..LINE - 1] == x && (x + y)[LINE - 1..] == y;
  }

  /** So what follows the first LINE - 1 characters of a comment is not a comment any more. */
  lemma CommentTailIsRead(x: seq<char>, y: seq<char>, resolve: Policy)
    requires '\n' !in x && |x| == LINE - 1 && x[0] == ';'
    ensures Config(x + y, resolve) == Config(y, resolve)
  {
    LongLine(x, y, resolve);
    assert UpToNul(x)[0] == ';';
  }

  // ----- where the two scanners disagree -----

  /** Outside quotes no escape is open. */
  lemma {:induction false} EscapesAreQuoted(s: seq<char>, inQuote: bool, escape: bool)
    requires escape ==> inQuote
    ensures var f := Scan(s, inQuote, escape); f.escape ==> f.inQuote
  {
    if s == [] {
    } else if escape { EscapesAreQuoted(s[1..], inQuote, false); }
    else if s[0] == '\\' && inQuote { EscapesAreQuoted(s[1..], inQuote, true); }
    else if s[0] == '"' { EscapesAreQuoted(s[1..], !inQuote, false); }
    else { EscapesAreQuoted(s[1..], inQuote, false); }
  }

  /** A stripper that stops keeps a proper prefix, whatever follows. */
  lemma {:induction false} StripStops(x: seq<char>, y: seq<char>, inQuote: bool, escape: bool)
    requires Scan(x, inQuote, escape).stopped
    ensures var r := Strip(x + y, inQuote, escape); r == Strip(x, inQuote, escape) && r <= x && |r| < |x|
  {
    assert x != [] && (x + y)[0] == x[0] && (x + y)[1..] == x[1..] + y && x == [x[0]] + x[1..];
    if escape { StripStops(x[1..], y, inQuote, false); }
    else if x[0] == '\\' && inQuote { StripStops(x[1..], y, inQuote, true); }
    else if x[0] == '"' { StripStops(x[1..], y, !inQuote, false); }
    else if x[0] == ';' && !inQuote { }
    else { StripStops(x[1..], y, inQuote, false); }
  }

  /** The stripper passes over a word and goes on as from the start exactly if the word is balanced. */
  lemma StripAgreesIff(s: seq<char>)
    ensures (forall y :: Strip(s + y, false, false) == s + Strip(y, false, false)) <==> Balanced(s)
  {
    var f := Scan(s, false, false);
    EscapesAreQuoted(s, false, false);
    if f.stopped {
      StripStops(s, [], false, false);
      assert |Strip(s + [], false, false)| < |s + Strip([], false, false)|;
    } else {
      forall y ensures Strip(s + y, false, false) == s + Strip(y, f.inQuote, f.escape) {
        StripThrough(s, y, false, false);
      }
      if f.inQuote {
        OpenQuoteKeeps(f.escape);
        assert |Strip(s + ";", false, false)| != |s + Strip(";", false, false)|;
      }
    }
  }

  lemma OpenQuoteKeeps(escape: bool)
    ensures Strip(";", true, escape) == ";" && Strip(";", false, false) == []
    ensures Strip(" ;", true, escape) == " ;"
  {
    assert ";"[1..] == [] && " ;"[1..] == ";";
    assert Strip(";", true, false) == [';'] + Strip([], true, false);
  }

  /** A directive with a plain path, and behind it a comment. */
  function WithComment(s: seq<char>, c: seq<char>): seq<char> {
    "loadlib" + (" " + (s + (" " + c)))
  }

  ghost predicate IsComment(c: seq<char>) {
    c == [] || c[0] == ';'
  }

  lemma BalancedRead(s: seq<char>, c: seq<char>)
    requires Word(s) && |s| < FIELD && Balanced(s) && IsComment(c)
    ensures ParseText(WithComment(s, c)) == Directive(s, [])
  {
    var w := Written([], " ", s, Plain, Missing, " ", c);
    LineRoundTrip(w);
    assert Render(w) == WithComment(s, c);
  }

  lemma StripHead(gap: seq<char>, x: seq<char>)
    requires Spaces(gap)
    ensures Strip("loadlib" + (gap + x), false, false) == "loadlib" + (gap + Strip(x, false, false))
  {
    StripPlain(gap, x);
    StripPlain("loadlib", gap + x);
  }

  /** What is read of a line whose stripped text ends in something dark. */
  lemma ReadsFields(t: seq<char>, gap: seq<char>, x: seq<char>)
    requires Spaces(gap) && gap != [] && Dark(x) && Strip(t, false, false) == "loadlib" + (gap + x)
    ensures ParseText(t) == Fields(gap + x)
  {
    var u := "loadlib" + (gap + x);
    TrimLeftSpaces([], u);
    assert [] + u == u;
    assert u[|u| - 1] == x[|x| - 1];
    TrimRightSpaces(u, []);
    assert u + [] == u;
    assert u[..7] == "loadlib" && u[7..] == gap + x && u[7] == gap[0] && gap[0] in gap;
  }

  lemma NothingLeft(t: seq<char>, gap: seq<char>)
    requires Spaces(gap) && Strip(t, false, false) == "loadlib" + gap
    ensures ParseText(t) == Fields([]) == Rejected
  {
    var u := "loadlib";
    TrimLeftSpaces([], u + gap);
    assert [] + (u + gap) == u + gap;
    TrimRightSpaces(u, gap);
    assert u[7..] == [];
  }

  lemma OneWord(gap: seq<char>, x: seq<char>)
    requires Spaces(gap) && Word(x) && |x| < FIELD
    ensures Fields(gap + x) == Directive(x, [])
  {
    assert x + [] == x;
    TokenField(gap, x, Plain, [], FIELD);
  }

  lemma TwoWords(gap: seq<char>, x: seq<char>, between: seq<char>, y: seq<char>)
    requires Spaces(gap) && Word(x) && |x| < FIELD && Spaces(between) && between != [] && Word(y) && |y| < FIELD
    ensures Fields(gap + (x + (between + y))) == Directive(x, y)
  {
    assert (between + y)[0] == between[0] && between[0] in between;
    TokenField(gap, x, Plain, between + y, FIELD);
    assert y + [] == y;
    TokenField(between, y, Plain, [], FIELD);
  }

  /** A comment sign in the word, outside its quotes, cuts the path. */
  lemma CutRead(s: seq<char>, gap: seq<char>)
    requires Word(s) && |s| < FIELD && Scan(s, false, false).stopped && Spaces(gap) && gap != []
    ensures ParseText("loadlib" + (gap + (s + gap))) != Directive(s, [])
  {
    var x := Strip(s, false, false);
    var t := "loadlib" + (gap + (s + gap));
    StripStops(s, gap, false, false);
    StripHead(gap, s + gap);
    assert x <= s && forall c :: c in x ==> c in s;
    if x == [] {
      assert gap + x == gap;
      NothingLeft(t, gap);
    } else {
      assert x[|x| - 1] in x && x[0] == s[0];
      ReadsFields(t, gap, x);
      OneWord(gap, x);
    }
  }

  /** After an open quote the comment stays and is read as the arguments. */
  lemma OpenRead(s: seq<char>, gap: seq<char>, sign: seq<char>)
    requires Word(s) && |s| < FIELD && !Scan(s, false, false).stopped && Scan(s, false, false).inQuote
    requires gap == " " && sign == ";"
    ensures ParseText("loadlib" + (gap + (s + (gap + sign)))) == Directive(s, sign)
  {
    var x, t := s + (gap + sign), "loadlib" + (gap + (s + (gap + sign)));
    assert gap + sign == " ;";
    OpenQuoteKeeps(Scan(s, false, false).escape);
    StripThrough(s, gap + sign, false, false);
    StripHead(gap, x);
    assert x[|x| - 1] == ';';
    ReadsFields(t, gap, x);
    TwoWords(gap, s, gap, sign);
  }

  /** A plain path is read back in front of every comment exactly if it is balanced. */
  lemma PlainPathIff(s: seq<char>)
    requires Word(s) && |s| < FIELD
    ensures (forall c :: IsComment(c) ==> ParseText(WithComment(s, c)) == Directive(s, [])) <==> Balanced(s)
  {
    EscapesAreQuoted(s, false, false);
    if Balanced(s) {
      forall c | IsComment(c) ensures ParseText(WithComment(s, c)) == Directive(s, []) { BalancedRead(s, c); }
    } else if Scan(s, false, false).stopped {
      CutRead(s, " ");
      assert " " + [] == " ";
      assert IsComment([]) && ParseText(WithComment(s, [])) != Directive(s, []);
    } else {
      OpenRead(s, " ", ";");
      assert IsComment(";") && ParseText(WithComment(s, ";")) == Directive(s, ";");
    }
  }
}
