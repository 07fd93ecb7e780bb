/** user/grep.c: the matcher of Kernighan and Pike (chapter 9 of The Practice of Programming) and the
    line loop around it.  Strings are the characters before the terminating NUL. */
module Grep {

  // ---------------------------------------------------------------------------
  // What a pattern means
  // ---------------------------------------------------------------------------

  /** One character, or any number of them. */
  datatype Item = One(c: char) | Star(c: char)

  /** A pattern without a leading `^`; `toEnd` if it ends in `$`. */
  datatype Pattern = Pattern(items: seq<Item>, toEnd: bool)

  function Parse(re: string): Pattern
  {
    if re == [] then Pattern([], false)
    else if |re| > 1 && re[1] == '*' then
      var rest := Parse(re[2..]); Pattern([Star(re[0])] + rest.items, rest.toEnd)
    else if re == "$" then Pattern([], true)
    else
      var rest := Parse(re[1..]); Pattern([One(re[0])] + rest.items, rest.toEnd)
  }

  predicate Stands(c: char, x: char) { c == '.' || c == x }

  /** The strings an item stands for. */
  predicate Fits(item: Item, s: string)
  {
    match item
    case One(c) => |s| == 1 && Stands(c, s[0])
    case Star(c) => forall i | 0 <= i < |s| :: Stands(c, s[i])
  }

  function Concat(pieces: seq<string>): string
  {
    if pieces == [] then "" else pieces[0] + Concat(pieces[1..])
  }

  /** `s` can be cut into one piece for each item. */
  ghost predicate Cut(items: seq<Item>, pieces: seq<string>, s: string)
  {
    |pieces| == |items| && Concat(pieces) == s && forall i | 0 <= i < |items| :: Fits(items[i], pieces[i])
  }

  ghost predicate Denotes(items: seq<Item>, s: string) { exists pieces :: Cut(items, pieces, s) }

  /** The first `n` characters of the text are in the language of the pattern. */
  ghost predicate Prefix(p: Pattern, text: string, n: nat)
  {
    n <= |text| && Denotes(p.items, text[..n]) && (p.toEnd ==> n == |text|)
  }

  ghost predicate Begins(p: Pattern, text: string) { exists n: nat :: Prefix(p, text, n) }

  predicate Anchored(re: string) { re != [] && re[0] == '^' }

  /** Some substring is in the language of the pattern; `^` ties it to the start, `$` to the end. */
  ghost predicate Matches(re: string, text: string)
  {
    if Anchored(re) then Begins(Parse(re[1..]), text)
    else exists i: nat :: i <= |text| && Begins(Parse(re), text[i..])
  }

  // ---------------------------------------------------------------------------
  // How the language of a pattern follows from that of its tail
  // ---------------------------------------------------------------------------

  lemma DenotesNone(s: string)
    ensures Denotes([], s) <==> s == []
  {
    assert Cut([], [], []);
  }

  lemma DenotesCons(item: Item, rest: seq<Item>, s: string, k: nat)
    requires k <= |s| && Fits(item, s[..k]) && Denotes(rest, s[k..])
    ensures Denotes([item] + rest, s)
  {
    var pieces :| Cut(rest, pieces, s[k..]);
    var all := [s[..k]] + pieces;
    assert all[1..] == pieces && s[..k] + s[k..] == s;
    assert Cut([item] + rest, all, s);
  }

  lemma DenotesUncons(item: Item, rest: seq<Item>, s: string) returns (k: nat)
    requires Denotes([item] + rest, s)
    ensures k <= |s| && Fits(item, s[..k]) && Denotes(rest, s[k..])
  {
    var items := [item] + rest;
    var pieces :| Cut(items, pieces, s);
    k := |pieces[0]|;
    assert s == pieces[0] + Concat(pieces[1..]);
    assert Fits(items[0], pieces[0]);
    forall i | 0 <= i < |rest| ensures Fits(rest[i], pieces[1..][i]) {
      assert Fits(items[i + 1], pieces[i + 1]);
    }
    assert Cut(rest, pieces[1..], s[k..]);
  }

  lemma {:induction false} BeginsNone(p: Pattern, text: string)
    requires p.items == []
    ensures Begins(p, text) <==> (p.toEnd ==> text == [])
  {
    DenotesNone(text[..0]);
    forall n: nat | Prefix(p, text, n) ensures n == 0 {
      DenotesNone(text[..n]);
    }
    assert (p.toEnd ==> text == []) ==> Prefix(p, text, 0);
  }

  /** A pattern begins a text if its first item fits some prefix and the rest begins what is left. */
  lemma {:induction false} BeginsCons(item: Item, rest: Pattern, text: string)
    ensures Begins(Pattern([item] + rest.items, rest.toEnd), text)
            <==> exists k: nat :: k <= |text| && Fits(item, text[..k]) && Begins(rest, text[k..])
  {
    var p := Pattern([item] + rest.items, rest.toEnd);
    if Begins(p, text) {
      var n: nat :| Prefix(p, text, n);
      var k := DenotesUncons(item, rest.items, text[..n]);
      assert text[..n][..k] == text[..k] && text[..n][k..] == text[k..][..n - k];
      assert Prefix(rest, text[k..], n - k);
    }
    if k: nat :| k <= |text| && Fits(item, text[..k]) && Begins(rest, text[k..]) {
      var n: nat :| Prefix(rest, text[k..], n);
      assert text[..k + n][..k] == text[..k] && text[..k + n][k..] == text[k..][..n];
      DenotesCons(item, rest.items, text[..k + n], k);
      assert Prefix(p, text, k + n);
    }
  }

  lemma {:induction false} BeginsOne(c: char, rest: Pattern, text: string)
    ensures Begins(Pattern([One(c)] + rest.items, rest.toEnd), text)
            <==> text != [] && Stands(c, text[0]) && Begins(rest, text[1..])
  {
    BeginsCons(One(c), rest, text);
    if text != [] && Stands(c, text[0]) && Begins(rest, text[1..]) {
      assert Fits(One(c), text[..1]);
    }
  }

  // ---------------------------------------------------------------------------
  // The matcher
  // ---------------------------------------------------------------------------

  /** matchhere. */
  method MatchHere(re: string, text: string) returns (r: bool)
    ensures r <==> Begins(Parse(re), text)
    decreases |re|, 0
  {
    hide Begins;
    if re == [] {
      BeginsNone(Parse(re), text);
      return true;
    }
    if |re| > 1 && re[1] == '*' {
      BeginsCons(Star(re[0]), Parse(re[2..]), text);
      r := MatchStar(re[0], re[2..], text);
      return;
    }
    if re[0] == '$' && |re| == 1 {
      BeginsNone(Parse(re), text);
      return text == [];
    }
    BeginsOne(re[0], Parse(re[1..]), text);
    if text != [] && (re[0] == '.' || re[0] == text[0]) {
      r := MatchHere(re[1..], text[1..]);
      return;
    }
    r := false;
  }

  /** matchstar. */
  method MatchStar(c: char, re: string, text: string) returns (r: bool)
    ensures r <==> exists k: nat :: k <= |text| && Fits(Star(c), text[..k]) && Begins(Parse(re), text[k..])
    decreases |re|, 1
  {
    hide Begins;
    var i := 0;
    while true
      invariant i <= |text| && Fits(Star(c), text[..i])
      invariant forall k: nat | k < i :: !Begins(Parse(re), text[k..])
      decreases |text| - i
    {
      var here := MatchHere(re, text[i..]);
      if here {
        return true;
      }
      forall k: nat | i < k <= |text| && Fits(Star(c), text[..k]) ensures Stands(c, text[i]) {
        assert text[..k][i] == text[i];
      }
      if !(i < |text| && (text[i] == c || c == '.')) {
        return false;
      }
      i := i + 1;
    }
  }

  /** match. */
  method Match(re: string, text: string) returns (r: bool)
    ensures r <==> Matches(re, text)
  {
    hide Begins;
    if re != [] && re[0] == '^' {
      r := MatchHere(re[1..], text);
      return;
    }
    var i := 0;
    while true
      invariant i <= |text| && forall k: nat | k < i :: !Begins(Parse(re), text[k..])
      decreases |text| - i
    {
      var here := MatchHere(re, text[i..]);
      if here {
        return true;
      }
      if i == |text| {
        return false;
      }
      i := i + 1;
    }
  }

  // ---------------------------------------------------------------------------
  // The line loop
  // ---------------------------------------------------------------------------

  const BUFSZ: nat := 1024

  /** The position of the first newline, |s| if there is none. */
  function Newline(s: string): (k: nat)
    ensures k <= |s| && (k < |s| ==> s[k] == '\n')
  {
    if s == [] || s[0] == '\n' then 0 else 1 + Newline(s[1..])
  }

  lemma {:induction false} NewlineFirst(s: string)
    ensures '\n' !in s[..Newline(s)]
  {
    if s != [] && s[0] != '\n' {
      NewlineFirst(s[1..]);
      assert s[..Newline(s)] == [s[0]] + s[1..][..Newline(s[1..])];
    }
  }

  /** Which lines are taken into account: all, or those before the first one grep cannot handle. */
  datatype Scope = Every | Handled

  /** The line that ends at `k` fits the buffer with its newline and has no NUL, which would hide
      the newline from strchr. */
  predicate Handles(s: string, k: nat)
    requires k < |s|
  {
    k + 1 <= BUFSZ - 1 && '\0' !in s[..k]
  }

  /** The matching newline-terminated lines of `s`, in order. */
  ghost function Selected(re: string, s: string, scope: Scope): seq<string>
    decreases |s|
  {
    var k := Newline(s);
    if k == |s| || (scope.Handled? && !Handles(s, k)) then []
    else IfMatching(re, s, k) + Selected(re, s[k + 1..], scope)
  }

  /** The line that ends at `k`, if it matches. */
  ghost function IfMatching(re: string, s: string, k: nat): seq<string>
    requires k < |s|
  {
    if Matches(re, s[..k]) then [s[..k + 1]] else []
  }

  /** The matching lines grep should print. */
  ghost function Wanted(re: string, s: string): seq<string> { Selected(re, s, Every) }

  /** The matching lines grep does print: it gets no further than a line it cannot handle. */
  ghost function Printed(re: string, s: string): seq<string> { Selected(re, s, Handled) }

  /** What is left from the first line on that grep cannot handle, "" if there is none. */
  ghost function Missed(s: string): string
    decreases |s|
  {
    var k := Newline(s);
    if k == |s| then "" else if !Handles(s, k) then s else Missed(s[k + 1..])
  }

  lemma {:induction false} SelectedSplit(re: string, s: string)
    ensures Wanted(re, s) == Printed(re, s) + Wanted(re, Missed(s))
    decreases |s|
  {
    hide Selected, Newline, IfMatching, Handles;
    SelectedIs(re, s, Every);
    SelectedIs(re, s, Handled);
    NoneSelected(re, Every);
    if Newline(s) < |s| && Handles(s, Newline(s)) {
      var t := s[Newline(s) + 1..];
      SelectedSplit(re, t);
      Assoc(IfMatching(re, s, Newline(s)), Printed(re, t), Wanted(re, Missed(t)));
    }
  }

  lemma NoneSelected(re: string, scope: Scope)
    ensures Selected(re, "", scope) == []
  {
  }

  lemma Assoc(a: seq<string>, b: seq<string>, c: seq<string>)
    ensures a + (b + c) == a + b + c
  {
  }

  /** One unfolding of Selected. */
  lemma {:induction false} SelectedIs(re: string, s: string, scope: Scope)
    ensures var k := Newline(s);
            Selected(re, s, scope)
            == if k == |s| || (scope.Handled? && !Handles(s, k)) then []
               else IfMatching(re, s, k) + Selected(re, s[k + 1..], scope)
  {
    hide IfMatching, Newline, Handles;
  }

  /** grep prints exactly the matching lines if and only if no line matches from the first line on
      that is longer than 1023 bytes with its newline or has a NUL in it. */
  lemma {:induction false} PrintsWantedIff(re: string, s: string)
    ensures Printed(re, s) == Wanted(re, s) <==> Wanted(re, Missed(s)) == []
  {
    SelectedSplit(re, s);
  }

  lemma {:induction false} NewlineAfter(line: string, rest: string)
    requires '\n' !in line
    ensures Newline(line + "\n" + rest) == |line|
  {
    var s := line + "\n" + rest;
    if line != [] {
      NewlineAfter(line[1..], rest);
      assert s[1..] == line[1..] + "\n" + rest;
    }
  }

  /** The lines missed: nothing is printed from a line on that grep cannot handle, whatever follows. */
  lemma {:induction false} StopsAtLine(re: string, line: string, rest: string)
    requires '\n' !in line && (|line| >= BUFSZ - 1 || '\0' in line)
    ensures Printed(re, line + "\n" + rest) == []
    ensures Wanted(re, line + "\n" + rest) == (if Matches(re, line) then [line + "\n"] else []) + Wanted(re, rest)
  {
    var s := line + "\n" + rest;
    NewlineAfter(line, rest);
    SelectedIs(re, s, Every);
    SelectedIs(re, s, Handled);
    assert s[..|line|] == line && s[..|line| + 1] == line + "\n" && s[|line| + 1..] == rest;
    hide Matches, Selected, Newline;
  }

  /** The empty pattern matches every line. */
  lemma EmptyMatches(text: string)
    ensures Matches("", text)
  {
    BeginsNone(Parse(""), text[0..]);
  }

  /** A file of two lines, the first of 1023 characters, neither of which is printed although both
      match. */
  lemma {:induction false} MissesLines()
    ensures var line := seq(BUFSZ - 1, _ => 'a');
            Printed("", line + "\n" + "b\n") == [] && Wanted("", line + "\n" + "b\n") == [line + "\n", "b\n"]
  {
    var line := seq(BUFSZ - 1, _ => 'a');
    StopsAtLine("", line, "b\n");
    EmptyMatches(line);
    EmptyMatches("b");
    NewlineAfter("b", "");
    assert "b" + "\n" + "" == "b\n" && "b\n"[..1] == "b" && "b\n"[..2] == "b\n" && "b\n"[2..] == "";
    SelectedIs("", "b\n", Every);
    NoneSelected("", Every);
    hide Matches, Selected, Newline;
    assert Wanted("", "b\n") == ["b\n"];
  }

  /** `s[i..j]` is text without a newline, followed by one. */
  ghost predicate Line(s: string, i: nat, j: nat) { i <= j < |s| && s[j] == '\n' && '\n' !in s[i..j] }

  lemma SliceOfSlice(s: string, a: nat, i: nat, j: nat)
    requires a + j <= |s| && i <= j
    ensures s[a..][i..j] == s[i + a..j + a]
  {
  }

  /** Nothing is missed when every line is short and without NULs. */
  lemma {:induction false} ShortLines(s: string)
    requires forall i: nat, j: nat | Line(s, i, j) :: j + 1 - i <= BUFSZ - 1 && '\0' !in s[i..j]
    ensures Missed(s) == ""
    decreases |s|
  {
    var k := Newline(s);
    if k < |s| {
      NewlineFirst(s);
      assert s[0..k] == s[..k];
      assert Line(s, 0, k);
      var t := s[k + 1..];
      forall i: nat, j: nat | Line(t, i, j) ensures j + 1 - i <= BUFSZ - 1 && '\0' !in t[i..j] {
        SliceOfSlice(s, k + 1, i, j);
        assert Line(s, i + k + 1, j + k + 1);
      }
      ShortLines(t);
    }
  }

  /** There is no newline that strchr would find in `s`: none at all, or none before a NUL. */
  predicate Stuck(s: string) { Newline(s) == |s| || '\0' in s[..Newline(s)] }

  /** strchr(p, '\\n') in a buffer with a NUL at `m`, and perhaps others before. */
  method StrChr(buf: array<char>, p: nat, m: nat) returns (found: bool, q: nat)
    requires p <= m < buf.Length && buf[m] == '\0'
    ensures found <==> !Stuck(buf[p..m])
    ensures found ==> q == p + Newline(buf[p..m])
  {
    q := p;
    while buf[q] != '\0'
      invariant p <= q <= m && Newline(buf[p..m]) == q - p + Newline(buf[q..m]) && '\0' !in buf[p..q]
      decreases m - q
    {
      assert buf[q..m] == [buf[q]] + buf[q + 1..m];
      if buf[q] == '\n' {
        assert buf[p..m][..q - p] == buf[p..q];
        return true, q;
      }
      assert buf[p..q + 1] == buf[p..q] + [buf[q]];
      q := q + 1;
    }
    if q < m {
      assert buf[q..m] == [buf[q]] + buf[q + 1..m];
      assert buf[p..m][..Newline(buf[p..m])][q - p] == '\0';
    }
    found := false;
  }

  lemma {:induction false} SelectedLine(re: string, s: string, rest: string)
    requires Newline(s) < |s| && Handles(s, Newline(s))
    ensures var k := Newline(s);
            Printed(re, s + rest) == IfMatching(re, s, k) + Printed(re, s[k + 1..] + rest)
  {
    var k := Newline(s);
    NewlineAppend(s, rest);
    SelectedIs(re, s + rest, Handled);
    hide Selected, Newline, Matches;
    assert (s + rest)[..k] == s[..k] && (s + rest)[..k + 1] == s[..k + 1] && (s + rest)[k + 1..] == s[k + 1..] + rest;
  }

  lemma {:induction false} NewlineAppend(s: string, rest: string)
    ensures Newline(s + rest) == if Newline(s) < |s| then Newline(s) else |s| + Newline(rest)
  {
    if s == [] {
      assert s + rest == rest;
    } else if s[0] != '\n' {
      assert (s + rest)[1..] == s[1..] + rest;
      NewlineAppend(s[1..], rest);
    }
  }

  /** The C string at `p`: up to the first NUL. */
  function Text(s: string, p: nat): string
    decreases |s| - p
  {
    if p >= |s| || s[p] == '\0' then "" else [s[p]] + Text(s, p + 1)
  }

  lemma {:induction false} TextIs(s: string, p: nat, q: nat)
    requires p <= q < |s| && s[q] == '\0' && '\0' !in s[p..q]
    ensures Text(s, p) == s[p..q]
    decreases q - p
  {
    if p < q {
      assert s[p] == s[p..q][0] && s[p..q][1..] == s[p + 1..q];
      TextIs(s, p + 1, q);
    }
  }

  /** The body of the inner loop: the line from `p` up to the newline at `q`. */
  method PrintLine(re: string, buf: array<char>, p: nat, q: nat) returns (out: seq<string>)
    requires p <= q < buf.Length && buf[q] == '\n' && '\0' !in buf[p..q]
    modifies buf
    ensures forall i | 0 <= i < buf.Length && i != q :: buf[i] == old(buf[i])
    ensures out == if Matches(re, old(buf[p..q])) then [old(buf[p..q + 1])] else []
  {
    hide Matches;
    ghost var line, all := buf[p..q], buf[p..q + 1];
    out := [];
    buf[q] := '\0';
    assert buf[p..q] == line;
    TextIs(buf[..], p, q);
    var matched := Match(re, Text(buf[..], p));
    if matched {
      buf[q] := '\n';
      assert buf[p..q + 1] == all;
      out := [buf[p..q + 1]];
    }
  }

  lemma Slices(b: seq<char>, p: nat, q: nat, m: nat)
    requires p <= q < m <= |b|
    ensures b[p..m][..q - p] == b[p..q] && b[p..m][..q - p + 1] == b[p..q + 1] && b[p..m][q - p + 1..] == b[q + 1..m]
  {
  }

  /** The lines of the buffer before `m`, `rest` being the input not read yet: prints the matching
      ones and returns where the last line starts, in which there is no newline to be found. */
  method PrintLines(re: string, buf: array<char>, m: nat, ghost rest: string) returns (p: nat, out: seq<string>)
    requires buf.Length == BUFSZ && m < BUFSZ && buf[m] == '\0'
    modifies buf
    ensures p <= m && buf[p..m] == old(buf[..m])[p..] && Stuck(buf[p..m])
    ensures Printed(re, old(buf[..m]) + rest) == out + Printed(re, buf[p..m] + rest)
  {
    hide Matches, Selected, Printed;
    p, out := 0, [];
    ghost var all := buf[..m];
    while true
      invariant p <= m && buf[m] == '\0' && buf[p..m] == all[p..]
      invariant Printed(re, all + rest) == out + Printed(re, buf[p..m] + rest)
      decreases m - p
    {
      var found, q := StrChr(buf, p, m);
      ghost var s, b := buf[p..m], buf[..];
      if !found {
        return;
      }
      Slices(b, p, q, m);
      assert s[q - p] == '\n' && s[..q - p] == buf[p..q];
      var lines := PrintLine(re, buf, p, q);
      assert buf[q + 1..m] == b[q + 1..m];
      LineStep(re, all, s, rest, q - p, out, lines);
      TailOf(all, p, q);
      out := out + lines;
      p := q + 1;
    }
  }

  lemma TailOf(all: string, p: nat, q: nat)
    requires p <= q < |all|
    ensures all[p..][q - p + 1..] == all[q + 1..]
  {
  }

  lemma {:induction false} LineStep(re: string, all: string, s: string, rest: string, k: nat,
                                    out: seq<string>, lines: seq<string>)
    requires k == Newline(s) < |s| <= BUFSZ - 1 && '\0' !in s[..k]
    requires Printed(re, all + rest) == out + Printed(re, s + rest)
    requires lines == IfMatching(re, s, k)
    ensures Printed(re, all + rest) == out + lines + Printed(re, s[k + 1..] + rest)
  {
    hide IfMatching, Newline;
    SelectedLine(re, s, rest);
    hide Selected;
    var tail := Printed(re, s[k + 1..] + rest);
    assert out + (lines + tail) == out + lines + tail;
  }

  /** memmove(buf, buf + p, n). */
  method MoveDown(buf: array<char>, p: nat, n: nat)
    requires p + n <= buf.Length
    modifies buf
    ensures buf[..n] == old(buf[p..p + n])
  {
    var i := 0;
    while i < n
      invariant 0 <= i <= n
      invariant forall j | 0 <= j < i :: buf[j] == old(buf[p + j])
      invariant forall x | p + i <= x < p + n :: buf[x] == old(buf[x])
    {
      buf[i] := buf[p + i];
      i := i + 1;
    }
    assert forall j | 0 <= j < n :: buf[..n][j] == old(buf[p..p + n])[j];
  }

  /** How many bytes read returns: what the file and the buffer allow, cut down to the next of `sizes`
      (but not to nothing). */
  function ReadSize(sizes: seq<nat>, i: nat, room: nat, left: nat): (n: nat)
    ensures n <= room && n <= left && (n == 0 <==> room == 0 || left == 0)
  {
    var most := if room < left then room else left;
    if i < |sizes| && 0 < sizes[i] < most then sizes[i] else most
  }

  /** Nothing more is printed once the buffer is full without a line in it, or the file is at its end. */
  lemma {:induction false} NothingLeft(re: string, carry: string, rest: string)
    requires Stuck(carry) && (rest == [] || |carry| == BUFSZ - 1)
    ensures Printed(re, carry + rest) == []
  {
    var s, k := carry + rest, Newline(carry + rest);
    NewlineAppend(carry, rest);
    SelectedIs(re, s, Handled);
    if k < |s| && '\0' in carry[..Newline(carry)] {
      assert s[..k][..Newline(carry)] == carry[..Newline(carry)];
    }
  }

  /** The bytes read go behind the `m` bytes kept, with a NUL after them. */
  method Receive(buf: array<char>, m: nat, data: string)
    requires m + |data| < buf.Length
    modifies buf
    ensures buf[..m + |data|] == old(buf[..m]) + data && buf[m + |data|] == '\0'
  {
    forall i | 0 <= i < |data| {
      buf[m + i] := data[i];
    }
    buf[m + |data|] := '\0';
  }

  lemma {:induction false} RoundKeeps(re: string, input: string, before: seq<string>, lines: seq<string>,
                   carry: string, pos: nat, n: nat, rest: string)
    requires pos + n <= |input| && Printed(re, input) == before + Printed(re, carry + input[pos..])
    requires Printed(re, carry + input[pos..pos + n] + input[pos + n..]) == lines + Printed(re, rest + input[pos + n..])
    ensures Printed(re, input) == before + lines + Printed(re, rest + input[pos + n..])
  {
    hide Printed;
    assert input[pos..] == input[pos..pos + n] + input[pos + n..];
    assert carry + input[pos..] == carry + input[pos..pos + n] + input[pos + n..];
  }

  /** grep on a file, `sizes` saying how read splits it. */
  method Grep(re: string, input: string, sizes: seq<nat>) returns (out: seq<string>)
    ensures out == Printed(re, input)
  {
    hide Printed, Newline;
    var buf := new char[BUFSZ];
    var m, pos, turn := 0, 0, 0;
    out := [];
    assert buf[..0] + input[0..] == input && Newline(buf[..0]) == 0;
    while true
      invariant m < BUFSZ && pos <= |input| && Stuck(buf[..m])
      invariant Printed(re, input) == out + Printed(re, buf[..m] + input[pos..])
      decreases |input| - pos
    {
      var n := ReadSize(sizes, turn, BUFSZ - m - 1, |input| - pos);
      if n == 0 {
        NothingLeft(re, buf[..m], input[pos..]);
        return;
      }
      ghost var carry, before, tail := buf[..m], out, input[pos + n..];
      Receive(buf, m, input[pos..pos + n]);
      m, pos, turn := m + n, pos + n, turn + 1;
      var p, lines := PrintLines(re, buf, m, tail);
      out := out + lines;
      ghost var rest := buf[p..m];
      RoundKeeps(re, input, before, lines, carry, pos - n, n, rest);
      MoveDown(buf, p, m - p);
      m := m - p;
      assert buf[..m] == rest;
    }
  }
}
