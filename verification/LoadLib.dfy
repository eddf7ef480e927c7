/**
 The loadlib directives of src/core/loadlib/nv_core_loadlib.c. A comment stripper and a
 tokenizer scan the same line independently; the last section proves that they agree:
 what a printer writes, the parser reads back.
 C strings are arrays of characters that end at the first NUL.
 */
module LoadLib {

  const NUL: char := '\0'
  const LINE: nat := 1024
  const FIELD: nat := 512

  // ----- C strings -----

  predicate Terminated(s: seq<char>, p: nat) {
    exists i :: p <= i < |s| && s[i] == NUL
  }

  /** Where the string that starts at p ends. */
  ghost function End(s: seq<char>, p: nat): (e: nat)
    requires Terminated(s, p)
    ensures p <= e < |s| && s[e] == NUL && forall i :: p <= i < e ==> s[i] != NUL
    decreases |s| - p
  {
    if s[p] == NUL then p else End(s, p + 1)
  }

  /** The string that starts at p. */
  ghost function TextAt(s: seq<char>, p: nat): seq<char>
    requires Terminated(s, p)
  {
    s[p..End(s, p)]
  }

  lemma EndIs(s: seq<char>, p: nat, e: nat)
    requires p <= e < |s| && s[e] == NUL && forall i :: p <= i < e ==> s[i] != NUL
    ensures Terminated(s, p) && End(s, p) == e
  {
    assert s[e] == NUL;
  }

  /** isspace in the C locale. */
  predicate IsSpace(c: char) {
    c == ' ' || '\t' <= c <= '\r'
  }

  // ----- what the scanners compute, on text without NUL -----

  function Strip(t: seq<char>, inQuote: bool, escape: bool): seq<char> {
    if t == [] then []
    else if escape then [t[0]] + Strip(t[1..], inQuote, false)
    else if t[0] == '\\' && inQuote then [t[0]] + Strip(t[1..], inQuote, true)
    else if t[0] == '"' then [t[0]] + Strip(t[1..], !inQuote, false)
    else if t[0] == ';' && !inQuote then []
    else [t[0]] + Strip(t[1..], inQuote, false)
  }

  function TrimLeft(t: seq<char>): seq<char> {
    if t != [] && IsSpace(t[0]) then TrimLeft(t[1..]) else t
  }

  function TrimRight(t: seq<char>): seq<char> {
    if t != [] && IsSpace(t[|t| - 1]) then TrimRight(t[..|t| - 1]) else t
  }

  datatype Token = Declined | Failed | Got(value: seq<char>, rest: seq<char>)

  function Prepend(v: seq<char>, k: Token): Token {
    if k.Got? then Got(v + k.value, k.rest) else k
  }

  /** Inside quotes, with place for `room` more characters. */
  function Quoted(t: seq<char>, room: nat): Token
    decreases |t|
  {
    if t == [] then Failed
    else if t[0] == '"' then Got([], t[1..])
    else
      var u := if t[0] == '\\' && |t| > 1 then t[1..] else t;
      if room == 0 then Failed else Prepend([u[0]], Quoted(u[1..], room - 1))
  }

  function Bare(t: seq<char>, room: nat): Token {
    if t == [] || IsSpace(t[0]) then Got([], t)
    else if room == 0 then Failed
    else Prepend([t[0]], Bare(t[1..], room - 1))
  }

  function NextToken(t: seq<char>, size: nat): Token {
    if size == 0 then Failed
    else
      var u := TrimLeft(t);
      if u == [] then Declined
      else if u[0] == '"' then Quoted(u[1..], size - 1)
      else Bare(u, size - 1)
  }

  datatype Line = Skipped | Rejected | Directive(path: seq<char>, args: seq<char>)

  /** The two tokens after the keyword; the second may be missing. */
  function Fields(t: seq<char>): Line {
    var first := NextToken(t, FIELD);
    if !first.Got? || first.value == [] then Rejected
    else
      var second := NextToken(first.rest, FIELD);
      if second.Failed? then Rejected
      else
        var args, rest := if second.Got? then second.value else [], if second.Got? then second.rest else first.rest;
        if TrimLeft(rest) != [] then Rejected else Directive(first.value, args)
  }

  function ParseText(t: seq<char>): Line {
    var u := TrimRight(TrimLeft(Strip(t, false, false)));
    if !("loadlib" <= u) || (|u| > 7 && !IsSpace(u[7])) then Skipped else Fields(u[7..])
  }

  // ----- nv_loadlib_strip_comment -----

  method StripComment(line: array<char>)
    requires Terminated(line[..], 0)
    modifies line
    ensures Terminated(line[..], 0) && TextAt(line[..], 0) == Strip(old(TextAt(line[..], 0)), false, false)
  {
    ghost var s := line[..];
    ghost var t := TextAt(s, 0);
    var inQuote, escape, i := false, false, 0;
    while line[i] != NUL
      invariant i <= |t| && line[..] == s
      invariant Strip(t, false, false) == t[..i] + Strip(t[i..], inQuote, escape)
      decreases |t| - i
    {
      StripTurn(t, i, inQuote, escape);
      if escape {
        escape := false;
      } else if line[i] == '\\' && inQuote {
        escape := true;
      } else if line[i] == '"' {
        inQuote := !inQuote;
      } else if line[i] == ';' && !inQuote {
        Cut(line, i);
        return;
      }
      i := i + 1;
    }
    assert t[..i] == t && t[i..] == [];
  }

  /** One turn of the loop: where it stops, or the flags it goes on with. */
  lemma StripTurn(t: seq<char>, i: nat, inQuote: bool, escape: bool)
    requires i < |t|
    ensures var c := t[i];
            var stop := !escape && c == ';' && !inQuote;
            var escape' := !escape && c == '\\' && inQuote;
            var inQuote' := if !escape && c == '"' then !inQuote else inQuote;
            && (stop ==> Strip(t[i..], inQuote, escape) == [])
            && (!stop ==> t[..i] + Strip(t[i..], inQuote, escape) == t[..i + 1] + Strip(t[i + 1..], inQuote', escape'))
  {
    var u := t[i..];
    assert u[0] == t[i] && u[1..] == t[i + 1..];
    Regroup(t[..i], [t[i]], Strip(t[i + 1..], if !escape && t[i] == '"' then !inQuote else inQuote, !escape && t[i] == '\\' && inQuote));
    assert t[..i + 1] == t[..i] + [t[i]];
  }

  /** Ending the string at i. */
  method Cut(line: array<char>, i: nat)
    requires Terminated(line[..], 0) && i < End(line[..], 0)
    modifies line
    ensures Terminated(line[..], 0) && TextAt(line[..], 0) == old(TextAt(line[..], 0))[..i]
  {
    ghost var t := line[..i];
    line[i] := NUL;
    EndIs(line[..], 0, i);
    assert line[..i] == t;
  }

  // ----- nv_loadlib_trim -----

  method SkipSpace(line: array<char>, s: nat) returns (b: nat)
    requires Terminated(line[..], s)
    ensures s <= b && Terminated(line[..], b) && End(line[..], b) == End(line[..], s)
    ensures TextAt(line[..], b) == TrimLeft(TextAt(line[..], s))
    ensures line[b] == NUL || !IsSpace(line[b])
  {
    ghost var e := End(line[..], s);
    b := s;
    while line[b] != NUL && IsSpace(line[b])
      invariant s <= b <= e && TrimLeft(line[s..e]) == TrimLeft(line[b..e])
      decreases e - b
    {
      assert line[b..e][1..] == line[b + 1..e];
      b := b + 1;
    }
    EndIs(line[..], b, e);
    assert line[..][s..e] == line[s..e] && line[..][b..e] == line[b..e];
  }

  method StrLen(line: array<char>, s: nat) returns (n: nat)
    requires Terminated(line[..], s)
    ensures n == |TextAt(line[..], s)|
  {
    n := 0;
    while line[s + n] != NUL
      invariant s + n <= End(line[..], s)
      decreases End(line[..], s) - n
    {
      n := n + 1;
    }
  }

  method Trim(line: array<char>, s: nat) returns (b: nat)
    requires Terminated(line[..], s)
    modifies line
    ensures s <= b && Terminated(line[..], b)
    ensures TextAt(line[..], b) == TrimRight(TrimLeft(old(TextAt(line[..], s))))
    ensures line[b] == NUL <==> TrimLeft(old(TextAt(line[..], s))) == []
  {
    b := SkipSpace(line, s);
    if line[b] == NUL { return; }
    CutSpace(line, b);
  }

  /** The loop that overwrites trailing spaces, from the last character down to the one at b. */
  method CutSpace(line: array<char>, b: nat)
    requires Terminated(line[..], b) && line[b] != NUL && !IsSpace(line[b])
    modifies line
    ensures Terminated(line[..], b) && line[b] == old(line[b])
    ensures TextAt(line[..], b) == TrimRight(old(TextAt(line[..], b)))
  {
    var n := StrLen(line, b);
    ghost var t := line[..];
    ghost var e := End(t, b);
    var end := b + n - 1;
    while end > b && IsSpace(line[end])
      invariant b <= end < e < line.Length && line[end + 1] == NUL && line[..end + 1] == t[..end + 1]
      invariant TrimRight(t[b..e]) == TrimRight(t[b..end + 1])
    {
      TrimTurn(line[..], t, b, end);
      line[end] := NUL;
      assert line[..end] == t[..end];
      end := end - 1;
    }
    LastStays(line[..], t, b, e, end);
    EndIs(line[..], b, end + 1);
  }

  lemma TrimTurn(s: seq<char>, t: seq<char>, b: nat, end: nat)
    requires b < end < |s| == |t| && s[..end + 1] == t[..end + 1] && IsSpace(s[end])
    ensures TrimRight(t[b..end + 1]) == TrimRight(t[b..end]) && s[..end] == t[..end]
  {
    assert s[end] == s[..end + 1][end] == t[end];
    assert t[b..end + 1][..end - b] == t[b..end];
    assert s[..end] == s[..end + 1][..end];
  }

  lemma LastStays(s: seq<char>, t: seq<char>, b: nat, e: nat, end: nat)
    requires b <= end < e < |t| == |s| && s[..end + 1] == t[..end + 1] && (forall i :: b <= i < e ==> t[i] != NUL)
    requires !IsSpace(t[b]) && (end == b || !IsSpace(s[end]))
    ensures forall i :: b <= i <= end ==> s[i] != NUL
    ensures s[b..end + 1] == t[b..end + 1] == TrimRight(t[b..end + 1])
  {
    forall i | 0 <= i <= end ensures s[i] == t[i] {
      assert s[..end + 1][i] == t[..end + 1][i];
    }
    assert t[b..end + 1][end - b] == t[end];
  }

  // ----- nv_loadlib_parse_token -----

  datatype Code = OK | DECLINED | ERROR

  /** What the return code, the buffer and the cursor say. */
  ghost predicate Reports(rc: Code, buf: seq<char>, line: seq<char>, q: nat, k: Token)
    requires Terminated(line, q)
  {
    match k
    case Declined => rc == DECLINED
    case Failed => rc == ERROR
    case Got(value, rest) => rc == OK && Terminated(buf, 0) && TextAt(buf, 0) == value && TextAt(line, q) == rest
  }

  method ParseToken(line: array<char>, p: nat, buf: array<char>) returns (rc: Code, q: nat)
    requires line != buf && Terminated(line[..], p)
    modifies buf
    ensures Terminated(line[..], q) && (rc != OK ==> q == p)
    ensures Reports(rc, buf[..], line[..], q, NextToken(TextAt(line[..], p), buf.Length))
  {
    if buf.Length == 0 { return ERROR, p; }
    var b := SkipSpace(line, p);
    if line[b] == NUL { return DECLINED, p; }
    var n: nat;
    ghost var e := End(line[..], p);
    assert line[..][b..e][1..] == line[..][b + 1..e];
    if line[b] == '"' {
      rc, q, n := CopyQuoted(line, b + 1, e, buf);
    } else {
      rc, q, n := CopyBare(line, b, e, buf);
    }
    if rc == ERROR { return ERROR, p; }
    ghost var value := buf[..n];
    buf[n] := NUL;
    ValueIs(buf[..], value, n);
    EndIs(line[..], q, e);
  }

  lemma ValueIs(buf: seq<char>, value: seq<char>, n: nat)
    requires n < |buf| && buf[n] == NUL && buf[..n] == value && NUL !in value
    ensures Terminated(buf, 0) && TextAt(buf, 0) == value
  {
    forall i | 0 <= i < n ensures buf[i] != NUL {
      assert buf[i] == value[i];
    }
    EndIs(buf, 0, n);
  }

  lemma PrependTwice(v: seq<char>, c: char, k: Token)
    ensures Prepend(v, Prepend([c], k)) == Prepend(v + [c], k)
  {
    if k.Got? { assert v + ([c] + k.value) == v + [c] + k.value; }
  }

  /** One turn of the quoted loop: from q, past an escape at q', to q' + 1. */
  lemma QuotedTurn(s: seq<char>, q: nat, q': nat, e: nat, out: seq<char>, room: nat)
    requires q < e < |s| && s[e] == NUL && s[q] != '"' && (forall i :: q <= i < e ==> s[i] != NUL)
    requires q' == if s[q] == '\\' && s[q + 1] != NUL then q + 1 else q
    ensures q' < e && (room == 0 ==> Quoted(s[q..e], room).Failed?)
    ensures room > 0 ==> Prepend(out, Quoted(s[q..e], room)) == Prepend(out + [s[q']], Quoted(s[q' + 1..e], room - 1))
  {
    var t := s[q..e];
    assert (if t[0] == '\\' && |t| > 1 then t[1..] else t) == s[q'..e];
    if room > 0 {
      assert s[q'..e][1..] == s[q' + 1..e];
      PrependTwice(out, s[q'], Quoted(s[q' + 1..e], room - 1));
    }
  }

  lemma QuotedStops(s: seq<char>, q: nat, e: nat, out: seq<char>, room: nat)
    requires q <= e < |s| && (q < e ==> s[q] == '"')
    ensures Prepend(out, Quoted(s[q..e], room)) == if q < e then Got(out, s[q + 1..e]) else Failed
  {
    if q < e { assert s[q..e][1..] == s[q + 1..e]; }
  }

  lemma BareTurn(s: seq<char>, q: nat, e: nat, out: seq<char>, room: nat)
    requires q < e < |s| && !IsSpace(s[q])
    ensures room == 0 ==> Bare(s[q..e], room).Failed?
    ensures room > 0 ==> Prepend(out, Bare(s[q..e], room)) == Prepend(out + [s[q]], Bare(s[q + 1..e], room - 1))
  {
    assert s[q..e][0] == s[q] && s[q..e][1..] == s[q + 1..e];
    if room > 0 { PrependTwice(out, s[q], Bare(s[q + 1..e], room - 1)); }
  }

  /** buf[n] := c */
  method Put(buf: array<char>, n: nat, c: char)
    requires n < buf.Length && c != NUL && NUL !in buf[..n]
    modifies buf
    ensures buf[..n + 1] == old(buf[..n]) + [c] && NUL !in buf[..n + 1]
  {
    buf[n] := c;
    assert buf[..n + 1] == old(buf[..n]) + [c];
  }

  ghost predicate Holds(s: seq<char>, p: nat, e: nat) {
    p <= e < |s| && s[e] == NUL && forall i :: p <= i < e ==> s[i] != NUL
  }

  /** `all` is what has been copied, followed by the token from q on. */
  ghost predicate QuotedFrom(all: Token, out: seq<char>, s: seq<char>, q: nat, e: nat, room: int) {
    q <= e < |s| && room >= 0 && all == Prepend(out, Quoted(s[q..e], room))
  }

  /** The body of the quoted loop: one character, its escape undone, unless the buffer is full. */
  method CopyOne(line: array<char>, p: nat, ghost e: nat, buf: array<char>, n: nat, ghost all: Token) returns (full: bool, q: nat)
    requires line != buf && Holds(line[..], p, e) && line[p] != NUL && line[p] != '"' && n < buf.Length && NUL !in buf[..n]
    requires QuotedFrom(all, buf[..n], line[..], p, e, buf.Length - 1 - n)
    modifies buf
    ensures full ==> all.Failed?
    ensures !full ==> p < q <= e && n + 1 < buf.Length && NUL !in buf[..n + 1]
    ensures !full ==> QuotedFrom(all, buf[..n + 1], line[..], q, e, buf.Length - 2 - n)
  {
    q := p;
    if line[q] == '\\' && line[q + 1] != NUL {
      q := q + 1;
    }
    QuotedTurn(line[..], p, q, e, buf[..n], buf.Length - 1 - n);
    if n + 1 >= buf.Length { return true, q; }
    Put(buf, n, line[q]);
    return false, q + 1;
  }

  lemma QuotedBegins(s: seq<char>, p: nat, e: nat, room: nat)
    requires p <= e < |s|
    ensures QuotedFrom(Quoted(s[p..e], room), [], s, p, e, room)
  {
  }

  /** The loop for a quoted token, after the opening quote. */
  method CopyQuoted(line: array<char>, p: nat, ghost e: nat, buf: array<char>) returns (rc: Code, q: nat, n: nat)
    requires line != buf && Holds(line[..], p, e) && buf.Length > 0
    modifies buf
    ensures rc != DECLINED && (rc == ERROR <==> Quoted(line[..][p..e], buf.Length - 1).Failed?)
    ensures rc == OK ==> p <= q <= e && n < buf.Length && NUL !in buf[..n]
    ensures rc == OK ==> Quoted(line[..][p..e], buf.Length - 1) == Got(buf[..n], line[..][q..e])
  {
    q, n := p, 0;
    ghost var s := line[..];
    ghost var all := Quoted(s[p..e], buf.Length - 1);
    QuotedBegins(s, p, e, buf.Length - 1);
    assert buf[..0] == [];
    while line[q] != NUL && line[q] != '"'
      invariant p <= q <= e && n < buf.Length && NUL !in buf[..n] && line[..] == s
      invariant QuotedFrom(all, buf[..n], s, q, e, buf.Length - 1 - n)
      decreases e - q
    {
      var full, next := CopyOne(line, q, e, buf, n, all);
      if full { return ERROR, q, n; }
      n, q := n + 1, next;
    }
    QuotedStops(s, q, e, buf[..n], buf.Length - 1 - n);
    if line[q] != '"' { return ERROR, q, n; }
    return OK, q + 1, n;
  }

  /** The loop for a token without quotes. */
  method CopyBare(line: array<char>, p: nat, ghost e: nat, buf: array<char>) returns (rc: Code, q: nat, n: nat)
    requires line != buf && Holds(line[..], p, e) && buf.Length > 0
    modifies buf
    ensures rc != DECLINED && (rc == ERROR <==> Bare(line[..][p..e], buf.Length - 1).Failed?)
    ensures rc == OK ==> p <= q <= e && n < buf.Length && NUL !in buf[..n]
    ensures rc == OK ==> Bare(line[..][p..e], buf.Length - 1) == Got(buf[..n], line[..][q..e])
  {
    q, n := p, 0;
    ghost var s := line[..];
    while line[q] != NUL && !IsSpace(line[q])
      invariant p <= q <= e && n < buf.Length && NUL !in buf[..n] && line[..] == s
      invariant Bare(s[p..e], buf.Length - 1) == Prepend(buf[..n], Bare(s[q..e], buf.Length - 1 - n))
      decreases e - q
    {
      BareTurn(s, q, e, buf[..n], buf.Length - 1 - n);
      if n + 1 >= buf.Length { return ERROR, q, n; }
      Put(buf, n, line[q]);
      n, q := n + 1, q + 1;
    }
    return OK, q, n;
  }

  // ----- the body of the line loop of nv_core_loadlibs_parse_config -----

  method HasKeyword(line: array<char>, b: nat) returns (yes: bool)
    requires Terminated(line[..], b)
    ensures yes <==> "loadlib" <= TextAt(line[..], b) && (|TextAt(line[..], b)| > 7 ==> IsSpace(TextAt(line[..], b)[7]))
  {
    var word := "loadlib";
    ghost var t := TextAt(line[..], b);
    var i := 0;
    while i < 7 && line[b + i] == word[i]
      invariant i <= 7 && i <= |t| && forall k :: 0 <= k < i ==> t[k] == word[k]
    {
      i := i + 1;
    }
    if i < 7 {
      assert i < |t| ==> t[i] != word[i];
      return false;
    }
    assert word == t[..7];
    yes := line[b + 7] == NUL || IsSpace(line[b + 7]);
  }

  method ParseLine(line: array<char>) returns (r: Line)
    requires Terminated(line[..], 0)
    modifies line
    ensures r == ParseText(old(TextAt(line[..], 0)))
  {
    StripComment(line);
    var b := Trim(line, 0);
    var keyword := HasKeyword(line, b);
    if !keyword { return Skipped; }
    TextFrom(line[..], b, 7);
    r := ParseFields(line, b + 7);
  }

  lemma TextFrom(s: seq<char>, b: nat, n: nat)
    requires Terminated(s, b) && n <= |TextAt(s, b)|
    ensures Terminated(s, b + n) && TextAt(s, b + n) == TextAt(s, b)[n..]
  {
    EndIs(s, b + n, End(s, b));
  }

  method ParseFields(line: array<char>, p: nat) returns (r: Line)
    requires Terminated(line[..], p)
    modifies line
    ensures r == Fields(old(TextAt(line[..], p)))
  {
    var path, args := new char[FIELD], new char[FIELD];
    ghost var was := line[..];
    var rc, q := ParseToken(line, p, path);
    if rc != OK || path[0] == NUL { return Rejected; }
    var n := StrLen(path, 0);
    ghost var value := TextAt(path[..], 0);
    rc, q := ParseToken(line, q, args);
    if rc == ERROR { return Rejected; }
    if rc == DECLINED { args[0] := NUL; EndIs(args[..], 0, 0); }
    var m := StrLen(args, 0);
    assert path[..n] == value && args[..m] == TextAt(args[..], 0);
    q := Trim(line, q);
    if line[q] != NUL { return Rejected; }
    return Directive(path[..n], args[..m]);
  }

  // ----- nv_core_loadlibs_parse_config -----

  datatype Lib = Lib(path: seq<char>, args: seq<char>)

  datatype Outcome = Outcome(ok: bool, libs: seq<Lib>)

  /** How much fgets takes: to the end of the line, at most LINE - 1 characters. */
  function TakeLine(s: seq<char>, room: nat): (n: nat)
    ensures n <= |s| && n <= room && (s != [] && room > 0 ==> n > 0)
  {
    if s == [] || room == 0 then 0 else if s[0] == '\n' then 1 else 1 + TakeLine(s[1..], room - 1)
  }

  /** The text of a line read by fgets: nothing after a NUL in the file is seen. */
  function UpToNul(s: seq<char>): seq<char> {
    if s == [] || s[0] == NUL then [] else [s[0]] + UpToNul(s[1..])
  }

  datatype Option<+T> = None | Some(value: T)

  /** What the path policy makes of a path: the path to load, or a refusal. */
  type Policy = seq<char> -> Option<seq<char>>

  /** One line, then the rest of the file. */
  function Then(line: Line, rest: Outcome, resolve: Policy): Outcome {
    match line
    case Skipped => rest
    case Rejected => Outcome(false, [])
    case Directive(path, args) =>
      if resolve(path).None? then Outcome(false, []) else Outcome(rest.ok, [Lib(resolve(path).value, args)] + rest.libs)
  }

  /** The libraries named by a file, up to the first line that fails. */
  function Config(file: seq<char>, resolve: Policy): Outcome
    decreases |file|
  {
    if file == [] then Outcome(true, [])
    else
      var n := TakeLine(file, LINE - 1);
      Then(ParseText(UpToNul(file[..n])), Config(file[n..], resolve), resolve)
  }

  lemma {:induction false} ReadText(s: seq<char>)
    ensures Terminated(s + [NUL], 0) && TextAt(s + [NUL], 0) == UpToNul(s)
  {
    var c := s + [NUL];
    assert c[|s|] == NUL;
    var e := End(c, 0);
    forall i | 0 <= i < e ensures s[i] != NUL {
      assert s[i] == c[i];
    }
    UpToNulIs(s, e);
    assert c[..e] == s[..e];
  }

  lemma {:induction false} UpToNulIs(s: seq<char>, e: nat)
    requires e <= |s| && (forall i :: 0 <= i < e ==> s[i] != NUL) && (e < |s| ==> s[e] == NUL)
    ensures UpToNul(s) == s[..e]
  {
    if e > 0 {
      UpToNulIs(s[1..], e - 1);
      assert s[..e] == [s[0]] + s[1..][..e - 1];
    }
  }

  /** What fgets leaves in the line buffer; the rest of the buffer is arbitrary. */
  method ReadLine(taken: seq<char>) returns (line: array<char>)
    requires |taken| < LINE
    ensures fresh(line) && line.Length == LINE && Terminated(line[..], 0) && TextAt(line[..], 0) == UpToNul(taken)
  {
    var text := taken + [NUL];
    line := new char[LINE](i => if 0 <= i < |text| then text[i] else ' ');
    ReadText(taken);
    LineHolds(line[..], text);
  }

  /** The line loop. */
  method ParseFile(file: seq<char>, resolve: Policy) returns (ok: bool, libs: seq<Lib>)
    ensures Outcome(ok, libs) == Config(file, resolve)
  {
    var rest := file;
    libs := [];
    while rest != []
      invariant Config(file, resolve) == var o := Config(rest, resolve); Outcome(o.ok, libs + o.libs)
      decreases |rest|
    {
      var n := TakeLine(rest, LINE - 1);
      var line := ReadLine(rest[..n]);
      var r := ParseLine(line);
      if r.Rejected? { return false, libs; }
      if r.Directive? {
        var path := resolve(r.path);
        if path.None? { return false, libs; }
        ghost var o := Config(rest[n..], resolve);
        assert libs + ([Lib(path.value, r.args)] + o.libs) == libs + [Lib(path.value, r.args)] + o.libs;
        libs := libs + [Lib(path.value, r.args)];
      }
      rest := rest[n..];
    }
    return true, libs;
  }

  /** nv_core_loadlibs_parse_config: nothing after startup, an empty list without a file. */
  method ParseConfig(loaded: bool, before: seq<Lib>, file: Option<seq<char>>, resolve: Policy) returns (ok: bool, libs: seq<Lib>)
    ensures loaded ==> ok && libs == before
    ensures !loaded && file.None? ==> ok && libs == []
    ensures !loaded && file.Some? ==> Outcome(ok, libs) == Config(file.value, resolve)
  {
    if loaded { return true, before; }
    if file.None? { return true, []; }
    ok, libs := ParseFile(file.value, resolve);
  }

  lemma LineHolds(line: seq<char>, text: seq<char>)
    requires Terminated(text, 0) && |text| <= |line| && forall i :: 0 <= i < |text| ==> line[i] == text[i]
    ensures Terminated(line, 0) && TextAt(line, 0) == TextAt(text, 0)
  {
    var e := End(text, 0);
    EndIs(line, 0, e);
    assert line[..e] == text[..e];
  }

  // ----- the printer, and what the scanners make of it -----

  function EscapeChar(c: char): seq<char> {
    if c == '"' || c == '\\' then ['\\', c] else [c]
  }

  function Escape(s: seq<char>): seq<char> {
    if s == [] then [] else EscapeChar(s[0]) + Escape(s[1..])
  }

  /** How a string is written: between quotes, or as it is. */
  datatype Style = InQuotes | Plain

  /** The second string may be left out, which means empty. */
  datatype Second = Missing | Present(between: seq<char>, args: seq<char>, style: Style)

  /** A directive as written: its strings, and the spaces and comment around them. */
  datatype Written = Written(lead: seq<char>, gap: seq<char>, path: seq<char>, style: Style, second: Second, tail: seq<char>, comment: seq<char>)

  predicate Spaces(s: seq<char>) {
    forall c :: c in s ==> IsSpace(c)
  }

  /** A string the tokenizer takes for one word. */
  predicate Word(s: seq<char>) {
    s != [] && s[0] != '"' && forall c :: c in s ==> !IsSpace(c)
  }

  datatype Flags = Flags(stopped: bool, inQuote: bool, escape: bool)

  /** How the stripper comes out of a string. */
  function Scan(s: seq<char>, inQuote: bool, escape: bool): Flags {
    if s == [] then Flags(false, inQuote, escape)
    else if escape then Scan(s[1..], inQuote, false)
    else if s[0] == '\\' && inQuote then Scan(s[1..], inQuote, true)
    else if s[0] == '"' then Scan(s[1..], !inQuote, false)
    else if s[0] == ';' && !inQuote then Flags(true, false, false)
    else Scan(s[1..], inQuote, false)
  }

  /** The stripper comes through a string, and out of its quotes. */
  predicate Balanced(s: seq<char>) {
    Scan(s, false, false) == Flags(false, false, false)
  }

  /** A string that needs no quotes. */
  predicate NeedsNone(s: seq<char>) {
    Word(s) && Balanced(s)
  }

  /** After a string without quotes something must part it from the next. */
  predicate WellFormed(w: Written) {
    && Spaces(w.lead) && Spaces(w.gap) && w.gap != [] && Spaces(w.tail)
    && (w.comment == [] || w.comment[0] == ';')
    && (w.style.Plain? ==> NeedsNone(w.path))
    && (w.second.Present? ==>
          && Spaces(w.second.between) && (w.style.Plain? ==> w.second.between != [])
          && (w.second.style.Plain? ==> NeedsNone(w.second.args)))
  }

  function Args(w: Written): seq<char> {
    if w.second.Present? then w.second.args else []
  }

  /** A quoted string, then the rest of the line. */
  function Quote(s: seq<char>, rest: seq<char>): seq<char> {
    ['"'] + (Escape(s) + (['"'] + rest))
  }

  function Field(s: seq<char>, style: Style, rest: seq<char>): seq<char> {
    if style.InQuotes? then Quote(s, rest) else s + rest
  }

  function SecondField(w: Written, rest: seq<char>): seq<char> {
    if w.second.Present? then w.second.between + Field(w.second.args, w.second.style, rest) else rest
  }

  function Arguments(w: Written, rest: seq<char>): seq<char> {
    w.gap + Field(w.path, w.style, SecondField(w, rest))
  }

  function Render(w: Written): seq<char> {
    w.lead + ("loadlib" + Arguments(w, w.tail + w.comment))
  }

  /** Stripping goes through a string and on with the flags it leaves. */
  lemma {:induction false} StripThrough(x: seq<char>, y: seq<char>, inQuote: bool, escape: bool)
    requires !Scan(x, inQuote, escape).stopped
    ensures var f := Scan(x, inQuote, escape); Strip(x + y, inQuote, escape) == x + Strip(y, f.inQuote, f.escape)
  {
    var f := Scan(x, inQuote, escape);
    if x == [] {
      assert x + y == y;
    } else {
      assert (x + y)[0] == x[0] && (x + y)[1..] == x[1..] + y;
      Regroup([x[0]], x[1..], Strip(y, f.inQuote, f.escape));
      assert x == [x[0]] + x[1..];
      if escape { StripThrough(x[1..], y, inQuote, false); }
      else if x[0] == '\\' && inQuote { StripThrough(x[1..], y, inQuote, true); }
      else if x[0] == '"' { StripThrough(x[1..], y, !inQuote, false); }
      else { StripThrough(x[1..], y, inQuote, false); }
    }
  }

  lemma {:induction false} PlainIsBalanced(x: seq<char>)
    requires '"' !in x && ';' !in x
    ensures Balanced(x)
  {
    if x != [] {
      assert x[0] in x && forall c :: c in x[1..] ==> c in x;
      PlainIsBalanced(x[1..]);
    }
  }

  lemma StripPlain(x: seq<char>, y: seq<char>)
    requires '"' !in x && ';' !in x
    ensures Strip(x + y, false, false) == x + Strip(y, false, false)
  {
    PlainIsBalanced(x);
    StripThrough(x, y, false, false);
  }

  lemma {:induction false} StripEscapedChar(c: char, z: seq<char>)
    ensures Strip(EscapeChar(c) + z, true, false) == EscapeChar(c) + Strip(z, true, false)
  {
    var t := EscapeChar(c) + z;
    if c == '"' || c == '\\' {
      var u := [c] + z;
      assert t[1..] == u && u[1..] == z;
      assert Strip(u, true, true) == [c] + Strip(z, true, false);
    } else {
      assert t[1..] == z;
    }
  }

  lemma {:induction false} StripEscaped(s: seq<char>, y: seq<char>)
    ensures Strip(Escape(s) + (['"'] + y), true, false) == Escape(s) + (['"'] + Strip(y, false, false))
  {
    var z := ['"'] + y;
    if s == [] {
      assert Escape(s) + z == z && z[1..] == y;
    } else {
      var h, e := EscapeChar(s[0]), Escape(s[1..]);
      Regroup(h, e, z);
      StripEscapedChar(s[0], e + z);
      StripEscaped(s[1..], y);
      Regroup(h, e, ['"'] + Strip(y, false, false));
    }
  }

  lemma Regroup(x: seq<char>, y: seq<char>, z: seq<char>)
    ensures (x + y) + z == x + (y + z)
  {
  }

  lemma StripQuote(s: seq<char>, y: seq<char>)
    ensures Strip(Quote(s, y), false, false) == Quote(s, Strip(y, false, false))
  {
    StripEscaped(s, y);
    assert Quote(s, y)[1..] == Escape(s) + (['"'] + y);
  }

  lemma StripField(s: seq<char>, style: Style, y: seq<char>)
    requires style.Plain? ==> NeedsNone(s)
    ensures Strip(Field(s, style, y), false, false) == Field(s, style, Strip(y, false, false))
  {
    if style.InQuotes? { StripQuote(s, y); } else { StripThrough(s, y, false, false); }
  }

  lemma StripSecond(w: Written, y: seq<char>)
    requires WellFormed(w)
    ensures Strip(SecondField(w, y), false, false) == SecondField(w, Strip(y, false, false))
  {
    if w.second.Present? {
      StripField(w.second.args, w.second.style, y);
      StripPlain(w.second.between, Field(w.second.args, w.second.style, y));
    }
  }

  /** Stripping removes exactly the comment, whatever the quoted strings hold. */
  lemma StripRender(w: Written)
    requires WellFormed(w)
    ensures Strip(Render(w), false, false) == w.lead + ("loadlib" + Arguments(w, w.tail))
  {
    var y := w.tail + w.comment;
    StripPlain(w.tail, w.comment);
    assert w.tail + [] == w.tail;
    StripSecond(w, y);
    StripField(w.path, w.style, SecondField(w, y));
    StripPlain(w.gap, Field(w.path, w.style, SecondField(w, y)));
    StripPlain("loadlib", Arguments(w, y));
    StripPlain(w.lead, "loadlib" + Arguments(w, y));
  }

  lemma {:induction false} TrimLeftSpaces(x: seq<char>, y: seq<char>)
    requires Spaces(x) && (y == [] || !IsSpace(y[0]))
    ensures TrimLeft(x + y) == y
  {
    if x == [] {
      assert x + y == y;
    } else {
      TrimLeftSpaces(x[1..], y);
      assert (x + y)[1..] == x[1..] + y;
    }
  }

  lemma {:induction false} TrimRightSpaces(x: seq<char>, y: seq<char>)
    requires Spaces(y) && x != [] && !IsSpace(x[|x| - 1])
    ensures TrimRight(x + y) == x
  {
    if y == [] {
      assert x + y == x;
    } else {
      TrimRightSpaces(x, y[..|y| - 1]);
      assert (x + y)[..|x + y| - 1] == x + y[..|y| - 1];
    }
  }

  lemma QuoteRest(s: seq<char>, x: seq<char>, y: seq<char>)
    ensures Quote(s, x + y) == Quote(s, x) + y
  {
  }

  lemma FieldRest(s: seq<char>, style: Style, x: seq<char>, y: seq<char>)
    ensures Field(s, style, x + y) == Field(s, style, x) + y
  {
    if style.InQuotes? { QuoteRest(s, x, y); } else { Regroup(s, x, y); }
  }

  lemma SecondRest(w: Written, y: seq<char>)
    ensures SecondField(w, y) == SecondField(w, []) + y
  {
    assert [] + y == y;
    if w.second.Present? {
      FieldRest(w.second.args, w.second.style, [], y);
      Regroup(w.second.between, Field(w.second.args, w.second.style, []), y);
    }
  }

  lemma ArgumentsRest(w: Written, y: seq<char>)
    ensures "loadlib" + Arguments(w, y) == ("loadlib" + Arguments(w, [])) + y
  {
    SecondRest(w, y);
    FieldRest(w.path, w.style, SecondField(w, []), y);
    Regroup(w.gap, Field(w.path, w.style, SecondField(w, [])), y);
    Regroup("loadlib", Arguments(w, []), y);
  }

  lemma {:induction false} QuotedChar(c: char, z: seq<char>, room: nat)
    ensures Quoted(EscapeChar(c) + z, room) == if room == 0 then Failed else Prepend([c], Quoted(z, room - 1))
  {
    var t, u := EscapeChar(c) + z, [c] + z;
    assert u[1..] == z;
    if c == '"' || c == '\\' {
      assert t[1..] == u;
    }
  }

  /** Inside quotes the tokenizer undoes the escapes, or runs out of room. */
  lemma {:induction false} QuotedEscaped(s: seq<char>, y: seq<char>, room: nat)
    ensures Quoted(Escape(s) + (['"'] + y), room) == if |s| <= room then Got(s, y) else Failed
  {
    var z := ['"'] + y;
    if s == [] {
      assert Escape(s) + z == z && z[1..] == y;
    } else {
      var h, e := EscapeChar(s[0]), Escape(s[1..]);
      Regroup(h, e, z);
      QuotedChar(s[0], e + z, room);
      if room > 0 {
        QuotedEscaped(s[1..], y, room - 1);
        assert s == [s[0]] + s[1..];
      }
    }
  }

  lemma TokenQuote(gap: seq<char>, s: seq<char>, y: seq<char>, size: nat)
    requires Spaces(gap) && size > 0
    ensures NextToken(gap + Quote(s, y), size) == if |s| < size then Got(s, y) else Failed
  {
    TrimLeftSpaces(gap, Quote(s, y));
    QuotedEscaped(s, y, size - 1);
    assert Quote(s, y)[1..] == Escape(s) + (['"'] + y);
  }

  lemma {:induction false} BareWord(s: seq<char>, y: seq<char>, room: nat)
    requires (forall c :: c in s ==> !IsSpace(c)) && (y == [] || IsSpace(y[0]))
    ensures Bare(s + y, room) == if |s| <= room then Got(s, y) else Failed
  {
    if s == [] {
      assert s + y == y;
    } else {
      assert (s + y)[0] == s[0] && (s + y)[1..] == s[1..] + y;
      assert s[0] in s && forall c :: c in s[1..] ==> c in s;
      if room > 0 {
        BareWord(s[1..], y, room - 1);
        assert s == [s[0]] + s[1..];
      }
    }
  }

  /** A written string is the next token, and the rest of the line is what is left. */
  lemma TokenField(gap: seq<char>, s: seq<char>, style: Style, y: seq<char>, size: nat)
    requires Spaces(gap) && size > 0
    requires style.Plain? ==> Word(s) && (y == [] || IsSpace(y[0]))
    ensures NextToken(gap + Field(s, style, y), size) == if |s| < size then Got(s, y) else Failed
  {
    if style.InQuotes? {
      TokenQuote(gap, s, y, size);
    } else {
      assert s[0] in s && (s + y)[0] == s[0];
      TrimLeftSpaces(gap, s + y);
      BareWord(s, y, size - 1);
    }
  }

  /** A rendered line gives its two strings back exactly when the path is not empty and both fit. */
  ghost predicate Good(w: Written) {
    0 < |w.path| < FIELD && |Args(w)| < FIELD
  }

  lemma FieldsRoundTrip(w: Written)
    requires WellFormed(w)
    ensures Fields(Arguments(w, [])) == if Good(w) then Directive(w.path, Args(w)) else Rejected
  {
    var rest := SecondField(w, []);
    if w.second.Present? && w.second.between != [] { assert rest[0] == w.second.between[0] && rest[0] in w.second.between; }
    TokenField(w.gap, w.path, w.style, rest, FIELD);
    if w.second.Present? { TokenField(w.second.between, w.second.args, w.second.style, [], FIELD); }
  }

  lemma LineRoundTrip(w: Written)
    requires WellFormed(w)
    ensures ParseText(Render(w)) == if Good(w) then Directive(w.path, Args(w)) else Rejected
  {
    StripRender(w);
    TrimLeftSpaces(w.lead, "loadlib" + Arguments(w, w.tail));
    ArgumentsRest(w, w.tail);
    var u := "loadlib" + Arguments(w, []);
    EndsDark(w);
    assert u[|u| - 1] == Arguments(w, [])[|Arguments(w, [])| - 1];
    TrimRightSpaces(u, w.tail);
    assert u[..7] == "loadlib" && u[7..] == Arguments(w, []) && u[7] == w.gap[0] && w.gap[0] in w.gap;
    FieldsRoundTrip(w);
  }

  ghost predicate Dark(s: seq<char>) {
    s != [] && !IsSpace(s[|s| - 1])
  }

  lemma FieldEndsDark(s: seq<char>, style: Style, y: seq<char>)
    requires Dark(y) || (y == [] && (style.Plain? ==> NeedsNone(s)))
    ensures Dark(Field(s, style, y))
  {
    var f := Field(s, style, y);
    if y == [] {
      if style.Plain? {
        assert f == s && s[|s| - 1] in s;
      } else {
        assert f[|f| - 1] == '"';
      }
    } else {
      assert f[|f| - 1] == y[|y| - 1];
    }
  }

  /** A line without its spaces and comment ends in a quote or in a plain word. */
  lemma EndsDark(w: Written)
    requires WellFormed(w)
    ensures Dark(Arguments(w, []))
  {
    var r := SecondField(w, []);
    if w.second.Present? {
      var f := Field(w.second.args, w.second.style, []);
      FieldEndsDark(w.second.args, w.second.style, []);
      assert r[|r| - 1] == f[|f| - 1];
    }
    FieldEndsDark(w.path, w.style, r);
    var f := Field(w.path, w.style, r);
    assert (w.gap + f)[|w.gap + f| - 1] == f[|f| - 1];
  }
}
