/**
 The grammar of configuration lines, independent of the scanners: which texts are a token, which lines are a directive,
 and which are skipped. The scanners accept exactly these and nothing else.
 */
module LoadLibGrammar {
  import opened LoadLib

  // ----- tokens -----

  /** A character between quotes, as it is or behind a backslash. */
  datatype Unit = Unit(escaped: bool, c: char)

  /** A token as written: between quotes, or a word. */
  datatype Spelling = ByUnits(us: seq<Unit>) | AsIs(word: seq<char>)

  predicate UnitOk(u: Unit) {
    u.escaped || (u.c != '"' && u.c != '\\')
  }

  predicate UnitsOk(us: seq<Unit>) {
    forall u :: u in us ==> UnitOk(u)
  }

  function SpellUnit(u: Unit): seq<char> {
    if u.escaped then ['\\', u.c] else [u.c]
  }

  function Spell(us: seq<Unit>): seq<char> {
    if us == [] then [] else SpellUnit(us[0]) + Spell(us[1..])
  }

  function Says(us: seq<Unit>): seq<char> {
    if us == [] then [] else [us[0].c] + Says(us[1..])
  }

  function Value(sp: Spelling): seq<char> {
    if sp.ByUnits? then Says(sp.us) else sp.word
  }

  /** The token followed by the rest of the text. */
  function Text(sp: Spelling, rest: seq<char>): seq<char> {
    if sp.ByUnits? then ['"'] + (Spell(sp.us) + (['"'] + rest)) else sp.word + rest
  }

  /** A word ends at a space or at the end of the text. */
  predicate SpellingOk(sp: Spelling, rest: seq<char>) {
    if sp.ByUnits? then UnitsOk(sp.us) else Word(sp.word) && (rest == [] || IsSpace(rest[0]))
  }

  ghost predicate Reads(t: seq<char>, gap: seq<char>, sp: Spelling, rest: seq<char>) {
    Spaces(gap) && SpellingOk(sp, rest) && t == gap + Text(sp, rest)
  }

  ghost predicate IsToken(t: seq<char>, value: seq<char>, rest: seq<char>, size: nat) {
    exists gap, sp :: Reads(t, gap, sp, rest) && Value(sp) == value && |value| < size
  }

  lemma QuotedUnit(u: Unit, z: seq<char>, room: nat)
    requires UnitOk(u)
    ensures Quoted(SpellUnit(u) + z, room) == if room == 0 then Failed else Prepend([u.c], Quoted(z, room - 1))
  {
    var t, w := SpellUnit(u) + z, [u.c] + z;
    assert w[1..] == z;
    if u.escaped { assert t[1..] == w; }
  }

  lemma {:induction false} QuotedReads(us: seq<Unit>, rest: seq<char>, room: nat)
    requires UnitsOk(us)
    ensures Quoted(Spell(us) + (['"'] + rest), room) == if |Says(us)| <= room then Got(Says(us), rest) else Failed
  {
    var z := ['"'] + rest;
    if us == [] {
      assert Spell(us) + z == z && z[1..] == rest;
    } else {
      assert us[0] in us && forall u :: u in us[1..] ==> u in us;
      Regroup(SpellUnit(us[0]), Spell(us[1..]), z);
      QuotedUnit(us[0], Spell(us[1..]) + z, room);
      if room > 0 { QuotedReads(us[1..], rest, room - 1); }
    }
  }

  /** What is written as a token is read as that token, if it fits. */
  lemma TokenSound(t: seq<char>, gap: seq<char>, sp: Spelling, rest: seq<char>, size: nat)
    requires Reads(t, gap, sp, rest) && size > 0
    ensures NextToken(t, size) == if |Value(sp)| < size then Got(Value(sp), rest) else Failed
  {
    var x := Text(sp, rest);
    if sp.ByUnits? {
      TrimLeftSpaces(gap, x);
      assert x[1..] == Spell(sp.us) + (['"'] + rest);
      QuotedReads(sp.us, rest, size - 1);
    } else {
      assert sp.word[0] in sp.word && x[0] == sp.word[0];
      TrimLeftSpaces(gap, x);
      BareWord(sp.word, rest, size - 1);
    }
  }

  // ----- every text is a token, spaces, or an open quote -----

  lemma {:induction false} SplitSpaces(t: seq<char>) returns (gap: seq<char>)
    ensures Spaces(gap) && t == gap + TrimLeft(t)
  {
    if t != [] && IsSpace(t[0]) {
      gap := SplitSpaces(t[1..]);
      gap := [t[0]] + gap;
      assert t == [t[0]] + t[1..];
    } else {
      gap := [];
    }
  }

  lemma {:induction false} TrimLeftDark(t: seq<char>)
    ensures TrimLeft(t) == [] || !IsSpace(TrimLeft(t)[0])
  {
    if t != [] && IsSpace(t[0]) { TrimLeftDark(t[1..]); }
  }

  lemma {:induction false} SplitWord(t: seq<char>) returns (word: seq<char>, rest: seq<char>)
    ensures t == word + rest && (forall c :: c in word ==> !IsSpace(c)) && (rest == [] || IsSpace(rest[0]))
  {
    if t == [] || IsSpace(t[0]) {
      word, rest := [], t;
    } else {
      word, rest := SplitWord(t[1..]);
      word := [t[0]] + word;
      assert t == [t[0]] + t[1..];
    }
  }

  /** Behind an opening quote: units up to the closing quote, or no closing quote at all, which the tokenizer refuses. */
  lemma {:induction false} SplitQuoted(t: seq<char>) returns (closed: bool, us: seq<Unit>, rest: seq<char>)
    ensures closed ==> UnitsOk(us) && t == Spell(us) + (['"'] + rest)
    ensures !closed ==> forall room: nat :: Quoted(t, room).Failed?
    decreases |t|
  {
    if t == [] {
      closed, us, rest := false, [], [];
    } else if t[0] == '"' {
      closed, us, rest := true, [], t[1..];
      assert t == ['"'] + t[1..] && [] + t == t;
    } else {
      var u := Unit(t[0] == '\\' && |t| > 1, if t[0] == '\\' && |t| > 1 then t[1] else t[0]);
      var z := if u.escaped then t[2..] else t[1..];
      assert t == SpellUnit(u) + z;
      closed, us, rest := SplitQuoted(z);
      forall room: nat | !closed ensures Quoted(t, room).Failed? { LongerFails(t, z, room); }
      if closed {
        Regroup(SpellUnit(u), Spell(us), ['"'] + rest);
        assert ([u] + us)[1..] == us;
        us := [u] + us;
      }
    }
  }

  lemma LongerFails(t: seq<char>, z: seq<char>, room: nat)
    requires t != [] && t[0] != '"' && z == if t[0] == '\\' && |t| > 1 then t[2..] else t[1..]
    requires forall r: nat :: Quoted(z, r).Failed?
    ensures Quoted(t, room).Failed?
  {
    var u := if t[0] == '\\' && |t| > 1 then t[1..] else t;
    assert u[1..] == z;
    if room > 0 { assert Quoted(z, room - 1).Failed?; }
  }

  /** Every text is spaces, or a token after spaces, or an open quote after spaces. */
  lemma TokenComplete(t: seq<char>, size: nat) returns (blank: bool, open: bool, gap: seq<char>, sp: Spelling, rest: seq<char>)
    requires size > 0
    ensures blank ==> Spaces(t) && NextToken(t, size) == Declined
    ensures open ==> NextToken(t, size) == Failed
    ensures !blank && !open ==> Reads(t, gap, sp, rest)
  {
    blank, open, gap, sp, rest := false, false, [], AsIs([]), [];
    gap := SplitSpaces(t);
    TrimLeftDark(t);
    var u := TrimLeft(t);
    if u == [] {
      blank := true;
      assert t == gap;
    } else if u[0] == '"' {
      var closed, us, r := SplitQuoted(u[1..]);
      open := !closed;
      assert u == ['"'] + u[1..];
      sp, rest := ByUnits(us), r;
    } else {
      var word, r := SplitWord(u);
      sp, rest := AsIs(word), r;
      assert word != [] && word[0] == u[0];
    }
  }

  lemma SpacesAreBlank(t: seq<char>, size: nat)
    requires Spaces(t) && size > 0
    ensures NextToken(t, size) == Declined && TrimLeft(t) == []
  {
    TrimLeftSpaces(t, []);
    assert t + [] == t;
  }

  /** The tokenizer takes a text exactly if it is one, and then for what it says. */
  lemma TokenIff(t: seq<char>, size: nat, value: seq<char>, rest: seq<char>)
    requires size > 0
    ensures NextToken(t, size) == Got(value, rest) <==> IsToken(t, value, rest, size)
    ensures NextToken(t, size) == Declined <==> Spaces(t)
  {
    if IsToken(t, value, rest, size) {
      var gap, sp :| Reads(t, gap, sp, rest) && Value(sp) == value && |value| < size;
      TokenSound(t, gap, sp, rest, size);
    }
    if Spaces(t) { SpacesAreBlank(t, size); }
    var blank, open, gap, sp, r := TokenComplete(t, size);
    if !blank && !open { TokenSound(t, gap, sp, r, size); }
  }

  // ----- directives -----

  /** Perhaps one more token, and then nothing but spaces. */
  ghost predicate Ends(rest: seq<char>, args: seq<char>) {
    (args == [] && Spaces(rest)) || exists tail :: IsToken(rest, args, tail, FIELD) && Spaces(tail)
  }

  /** One token that is not empty, and perhaps a second. */
  ghost predicate Directs(t: seq<char>, path: seq<char>, args: seq<char>) {
    path != [] && exists rest :: IsToken(t, path, rest, FIELD) && Ends(rest, args)
  }

  lemma BlankIff(t: seq<char>)
    ensures TrimLeft(t) == [] <==> Spaces(t)
  {
    var gap := SplitSpaces(t);
    if TrimLeft(t) == [] { assert t == gap; }
    if Spaces(t) { SpacesAreBlank(t, 1); }
  }

  /** What the tokenizer makes of the second field. */
  ghost predicate SecondIs(rest: seq<char>, args: seq<char>) {
    match NextToken(rest, FIELD)
    case Failed => false
    case Declined => args == [] && TrimLeft(rest) == []
    case Got(value, tail) => args == value && TrimLeft(tail) == []
  }

  lemma EndsIff(rest: seq<char>, args: seq<char>)
    ensures Ends(rest, args) <==> SecondIs(rest, args)
  {
    var second := NextToken(rest, FIELD);
    TokenIff(rest, FIELD, [], []);
    BlankIff(rest);
    if tail :| IsToken(rest, args, tail, FIELD) && Spaces(tail) {
      TokenIff(rest, FIELD, args, tail);
      BlankIff(tail);
    }
    if second.Got? {
      TokenIff(rest, FIELD, second.value, second.rest);
      BlankIff(second.rest);
    }
  }

  lemma DirectsIsRead(t: seq<char>, path: seq<char>, args: seq<char>)
    requires Directs(t, path, args)
    ensures Fields(t) == Directive(path, args)
  {
    var rest :| IsToken(t, path, rest, FIELD) && Ends(rest, args);
    TokenIff(t, FIELD, path, rest);
    EndsIff(rest, args);
  }

  lemma ReadIsDirects(t: seq<char>)
    requires Fields(t).Directive?
    ensures Directs(t, Fields(t).path, Fields(t).args)
  {
    var first := NextToken(t, FIELD);
    TokenIff(t, FIELD, first.value, first.rest);
    EndsIff(first.rest, Fields(t).args);
  }

  /** The fields of a directive are read exactly if they are one; everything else after the keyword is rejected. */
  lemma FieldsIff(t: seq<char>, path: seq<char>, args: seq<char>)
    ensures Fields(t) == Directive(path, args) <==> Directs(t, path, args)
    ensures Fields(t) == Rejected <==> forall p, a :: !Directs(t, p, a)
  {
    if Directs(t, path, args) { DirectsIsRead(t, path, args); }
    if Fields(t).Directive? {
      ReadIsDirects(t);
    } else {
      forall p, a ensures !Directs(t, p, a) {
        if Directs(t, p, a) { DirectsIsRead(t, p, a); }
      }
    }
  }

  /** A third token is refused, whatever it is. */
  lemma ThirdTokenRejected(t: seq<char>, path: seq<char>, rest: seq<char>, args: seq<char>, more: seq<char>)
    requires IsToken(t, path, rest, FIELD) && IsToken(rest, args, more, FIELD) && !Spaces(more)
    ensures Fields(t) == Rejected
  {
    TokenIff(t, FIELD, path, rest);
    TokenIff(rest, FIELD, args, more);
    BlankIff(more);
  }

  // ----- whole lines -----

  /** u is the text without the spaces around it. */
  ghost predicate IsCore(t: seq<char>, u: seq<char>) {
    exists lead, tail :: Spaces(lead) && Spaces(tail) && t == lead + (u + tail) && (u == [] || (!IsSpace(u[0]) && !IsSpace(u[|u| - 1])))
  }

  /** The text starts with the word loadlib. */
  ghost predicate HasWord(u: seq<char>) {
    exists rest :: u == "loadlib" + rest && (rest == [] || IsSpace(rest[0]))
  }

  lemma {:induction false} SplitTail(t: seq<char>) returns (tail: seq<char>)
    ensures Spaces(tail) && t == TrimRight(t) + tail && (TrimRight(t) == [] || !IsSpace(TrimRight(t)[|TrimRight(t)| - 1]))
  {
    if t != [] && IsSpace(t[|t| - 1]) {
      tail := SplitTail(t[..|t| - 1]);
      tail := tail + [t[|t| - 1]];
      assert t == t[..|t| - 1] + [t[|t| - 1]];
    } else {
      tail := [];
    }
  }

  /** Trimming finds the core, and there is no other. */
  lemma TrimIsCore(t: seq<char>, u: seq<char>)
    ensures IsCore(t, u) <==> u == TrimRight(TrimLeft(t))
  {
    var lead := SplitSpaces(t);
    TrimLeftDark(t);
    var v := TrimLeft(t);
    var tail := SplitTail(v);
    var w := TrimRight(v);
    assert IsCore(t, w) by {
      assert t == lead + (w + tail);
      if w != [] { assert w[0] == v[0]; }
    }
    if IsCore(t, u) { CoreIsTrimmed(t, u); }
  }

  lemma CoreIsTrimmed(t: seq<char>, u: seq<char>)
    requires IsCore(t, u)
    ensures u == TrimRight(TrimLeft(t))
  {
    var lead, tail :| Spaces(lead) && Spaces(tail) && t == lead + (u + tail) && (u == [] || (!IsSpace(u[0]) && !IsSpace(u[|u| - 1])));
    if u == [] {
      assert t == lead + tail && Spaces(t);
      SpacesAreBlank(t, 1);
    } else {
      assert (u + tail)[0] == u[0];
      TrimLeftSpaces(lead, u + tail);
      TrimRightSpaces(u, tail);
    }
  }

  lemma WordIff(u: seq<char>)
    ensures HasWord(u) <==> "loadlib" <= u && (|u| > 7 ==> IsSpace(u[7]))
  {
    var word := "loadlib";
    if word <= u {
      assert u == word + u[7..];
    }
    if HasWord(u) {
      var rest :| u == word + rest && (rest == [] || IsSpace(rest[0]));
      assert u[7..] == rest;
    }
  }

  /**
   What any line means, in terms of its text up to the comment and without the spaces around it: skipped if it does not start
   with the word, a directive exactly if what follows the word is one or two tokens of which the first is not empty, else rejected.
   */
  lemma LineMeans(t: seq<char>, u: seq<char>, path: seq<char>, args: seq<char>)
    requires IsCore(Strip(t, false, false), u)
    ensures ParseText(t) == Skipped <==> !HasWord(u)
    ensures ParseText(t) == Directive(path, args) <==> HasWord(u) && Directs(u[7..], path, args)
    ensures ParseText(t) == Rejected <==> HasWord(u) && forall p, a :: !Directs(u[7..], p, a)
  {
    TrimIsCore(Strip(t, false, false), u);
    WordIff(u);
    if HasWord(u) { FieldsIff(u[7..], path, args); }
  }

  /** The flags after a character. */
  function After(c: char, inQuote: bool, escape: bool): Flags {
    Flags(!escape && c == ';' && !inQuote, if !escape && c == '"' then !inQuote else inQuote, !escape && c == '\\' && inQuote)
  }

  lemma OneChar(t: seq<char>, inQuote: bool, escape: bool)
    requires t != []
    ensures var f := After(t[0], inQuote, escape);
            if f.stopped then Strip(t, inQuote, escape) == [] && Scan(t, inQuote, escape).stopped
            else Strip(t, inQuote, escape) == [t[0]] + Strip(t[1..], f.inQuote, f.escape) && Scan(t, inQuote, escape) == Scan(t[1..], f.inQuote, f.escape)
  {
  }

  /** The comment starts at the first semicolon outside quotes, and stripping takes it and nothing else. */
  lemma {:induction false} StripIs(t: seq<char>, inQuote: bool, escape: bool)
    ensures var n := |Strip(t, inQuote, escape)|;
            && n <= |t| && Strip(t, inQuote, escape) == t[..n] && !Scan(t[..n], inQuote, escape).stopped
            && (n < |t| ==> t[n] == ';' && Scan(t[..n + 1], inQuote, escape).stopped)
  {
    if t != [] {
      var f := After(t[0], inQuote, escape);
      OneChar(t, inQuote, escape);
      if f.stopped {
        OneChar(t[..1], inQuote, escape);
      } else {
        StripIs(t[1..], f.inQuote, f.escape);
        var n := |Strip(t[1..], f.inQuote, f.escape)|;
        Shifted(t, n, inQuote, escape);
        if n < |t| - 1 { Shifted(t, n + 1, inQuote, escape); }
      }
    }
  }

  lemma Shifted(t: seq<char>, n: nat, inQuote: bool, escape: bool)
    requires n < |t| && !After(t[0], inQuote, escape).stopped
    ensures var f := After(t[0], inQuote, escape); Scan(t[..n + 1], inQuote, escape) == Scan(t[1..][..n], f.inQuote, f.escape)
    ensures t[..n + 1] == [t[0]] + t[1..][..n]
  {
    OneChar(t[..n + 1], inQuote, escape);
    assert t[..n + 1][1..] == t[1..][..n];
  }

  /** The six characters that part words. */
  lemma SpacesAre(c: char)
    ensures IsSpace(c) <==> c == ' ' || c == '\t' || c == '\n' || c == '\r' || c as int == 11 || c as int == 12
  {
  }
}
