/**
 The regular expressions of grep (user/grep.c): the backtracking matcher, and the language
 of strings a pattern stands for.

 Patterns and texts are C strings without their final NUL.
 */
module Grep {
  import opened Common

  // --------------------------------------------------------------------------- the matcher

  function MatchHere(re: string, text: string): bool
    decreases |re| + |text|, 0
  {
    if re == [] then true
    else if |re| > 1 && re[1] == '*' then MatchStar(re[0], re[2..], text)
    else if re == "$" then text == []
    else text != [] && (re[0] == '.' || re[0] == text[0]) && MatchHere(re[1..], text[1..])
  }

  function MatchStar(c: char, re: string, text: string): bool
    decreases |re| + |text|, 1
  {
    || MatchHere(re, text)
    || (text != [] && (text[0] == c || c == '.') && MatchStar(c, re, text[1..]))
  }

  /** match tries every start of the text, the empty one at its end included. */
  method Match(re: string, text: string) returns (r: bool)
    ensures r <==> Found(re, text)
  {
    if re != [] && re[0] == '^' {
      r := MatchHere(re[1..], text);
      HereMeans(re[1..], text);
      return;
    }
    var i := 0;
    while true
      invariant 0 <= i <= |text|
      invariant forall j :: 0 <= j < i ==> !FoundAt(re, text[j..])
      decreases |text| - i
    {
      HereMeans(re, text[i..]);
      if MatchHere(re, text[i..]) {
        return true;
      }
      if i == |text| {
        return false;
      }
      i := i + 1;
    }
  }

  // -------------------------------------------------------------------------- the language

  /** A pattern is a row of characters, each wanted once or any number of times. */
  datatype Item = One(c: char) | Many(c: char)

  datatype Pattern = Pattern(items: seq<Item>, toEnd: bool)

  /** A star applies to the character before it; a dollar sign anchors only as the last character. */
  function Meaning(re: string): Pattern {
    if re == [] then Pattern([], false)
    else if |re| > 1 && re[1] == '*' then
      var p := Meaning(re[2..]); p.(items := [Many(re[0])] + p.items)
    else if re == "$" then Pattern([], true)
    else
      var p := Meaning(re[1..]); p.(items := [One(re[0])] + p.items)
  }

  predicate Fits(c: char, x: char) {
    c == '.' || c == x
  }

  predicate ItemFits(item: Item, part: string) {
    && (item.One? ==> |part| == 1)
    && forall i :: 0 <= i < |part| ==> Fits(item.c, part[i])
  }

  function Joined(parts: seq<string>): string {
    if parts == [] then "" else parts[0] + Joined(parts[1..])
  }

  /** The string splits into one part for each item. */
  ghost predicate Splits(items: seq<Item>, parts: seq<string>, w: string) {
    && |parts| == |items| && Joined(parts) == w
    && forall i :: 0 <= i < |items| ==> ItemFits(items[i], parts[i])
  }

  ghost predicate InLanguage(items: seq<Item>, w: string) {
    exists parts :: Splits(items, parts, w)
  }

  /** Some start of the text, or all of it for a pattern that ends with $, is in the language. */
  ghost predicate FoundAt(re: string, text: string) {
    exists n: nat :: n <= |text| && Prefix(re, text, n)
  }

  ghost predicate Prefix(re: string, text: string, n: nat)
    requires n <= |text|
  {
    InLanguage(Meaning(re).items, text[..n]) && (Meaning(re).toEnd ==> n == |text|)
  }

  /** What match looks for: anywhere in the text, or at its start after ^. */
  ghost predicate Found(re: string, text: string) {
    if re != [] && re[0] == '^' then FoundAt(re[1..], text)
    else exists i: nat :: i <= |text| && FoundAt(re, text[i..])
  }

  // ------------------------------------------------------------------------------- proofs

  lemma NoItems(w: string)
    ensures InLanguage([], w) <==> w == ""
  {
    if w == "" {
      assert Splits([], [], w);
    }
  }

  /** A part for the first item, then parts for the rest. */
  lemma ConsLanguage(item: Item, items: seq<Item>, part: string, w: string)
    requires ItemFits(item, part) && InLanguage(items, w)
    ensures InLanguage([item] + items, part + w)
  {
    var parts :| Splits(items, parts, w);
    assert ([part] + parts)[1..] == parts;
    assert Splits([item] + items, [part] + parts, part + w);
  }

  lemma UnconsLanguage(item: Item, items: seq<Item>, w: string) returns (k: nat)
    requires InLanguage([item] + items, w)
    ensures k <= |w| && ItemFits(item, w[..k]) && InLanguage(items, w[k..])
  {
    var parts :| Splits([item] + items, parts, w);
    k := |parts[0]|;
    assert w == parts[0] + Joined(parts[1..]);
    assert w[..k] == parts[0] && w[k..] == Joined(parts[1..]);
    forall i | 0 <= i < |items| ensures ItemFits(items[i], parts[1..][i]) {
      assert items[i] == ([item] + items)[i + 1];
    }
    assert ([item] + items)[0] == item;
    assert Splits(items, parts[1..], w[k..]);
  }

  /** The matcher accepts exactly the texts of which a start is in the language. */
  lemma {:induction false} HereMeans(re: string, text: string)
    ensures MatchHere(re, text) <==> FoundAt(re, text)
    decreases |re| + |text|, 0
  {
    hide InLanguage;
    if re == [] {
      NoItems(text[..0]);
      assert Prefix(re, text, 0);
    } else if |re| > 1 && re[1] == '*' {
      StarMeans(re, text);
    } else if re == "$" {
      EndMeans(text);
    } else if text == [] {
      forall n: nat | n <= |text| && Prefix(re, text, n) ensures false {
        var k := UnconsLanguage(One(re[0]), Meaning(re[1..]).items, text[..n]);
      }
    } else {
      HereMeans(re[1..], text[1..]);
      OneMeans(re, text);
    }
  }

  lemma EndMeans(text: string)
    ensures FoundAt("$", text) <==> text == []
  {
    forall n: nat | n <= |text| ensures InLanguage([], text[..n]) <==> n == 0 {
      NoItems(text[..n]);
    }
    if text == [] {
      assert Prefix("$", text, 0);
    }
  }

  /** A pattern that begins with a plain character. */
  lemma OneMeans(re: string, text: string)
    requires re != [] && !(|re| > 1 && re[1] == '*') && re != "$" && text != []
    ensures FoundAt(re, text) <==> Fits(re[0], text[0]) && FoundAt(re[1..], text[1..])
  {
    hide InLanguage;
    var c, rest := re[0], Meaning(re[1..]);
    if Fits(c, text[0]) && FoundAt(re[1..], text[1..]) {
      var n: nat :| n <= |text| - 1 && Prefix(re[1..], text[1..], n);
      ConsLanguage(One(c), rest.items, text[..1], text[1..][..n]);
      assert text[..1] + text[1..][..n] == text[..n + 1];
      assert Prefix(re, text, n + 1);
    }
    if FoundAt(re, text) {
      var n: nat :| n <= |text| && Prefix(re, text, n);
      var k := UnconsLanguage(One(c), rest.items, text[..n]);
      assert text[..n][..1][0] == text[0];
      assert text[..n][1..] == text[1..][..n - 1];
      assert Prefix(re[1..], text[1..], n - 1);
    }
  }

  /** A pattern that begins with a starred character. */
  lemma {:induction false} StarMeans(re: string, text: string)
    requires |re| > 1 && re[1] == '*'
    ensures MatchStar(re[0], re[2..], text) <==> FoundAt(re, text)
    decreases |re| + |text|, 0, 1
  {
    hide InLanguage;
    HereMeans(re[2..], text);
    StarUnfold(re, text);
    if text != [] {
      StarMeans(re, text[1..]);
    }
  }

  /** c*rest matches what rest matches, or a fitting character and then what c*rest matches. */
  lemma StarUnfold(re: string, text: string)
    requires |re| > 1 && re[1] == '*'
    ensures FoundAt(re, text) <==>
            FoundAt(re[2..], text) || (text != [] && Fits(re[0], text[0]) && FoundAt(re, text[1..]))
  {
    hide InLanguage;
    var c, rest := re[0], Meaning(re[2..]);
    if FoundAt(re[2..], text) {
      var n: nat :| n <= |text| && Prefix(re[2..], text, n);
      ConsLanguage(Many(c), rest.items, "", text[..n]);
      assert "" + text[..n] == text[..n];
      assert Prefix(re, text, n);
    }
    if text != [] && Fits(c, text[0]) && FoundAt(re, text[1..]) {
      var n: nat :| n <= |text| - 1 && Prefix(re, text[1..], n);
      LongerStar(c, rest.items, text[0], text[1..][..n]);
      assert [text[0]] + text[1..][..n] == text[..n + 1];
      assert Prefix(re, text, n + 1);
    }
    if FoundAt(re, text) {
      var n: nat :| n <= |text| && Prefix(re, text, n);
      var k := UnconsLanguage(Many(c), rest.items, text[..n]);
      if k == 0 {
        assert text[..n][0..] == text[..n];
        assert Prefix(re[2..], text, n);
      } else {
        ShorterStar(c, rest.items, text[..n], k);
        assert text[..n][1..] == text[1..][..n - 1];
        assert Prefix(re, text[1..], n - 1);
      }
    }
  }

  lemma LongerStar(c: char, items: seq<Item>, x: char, w: string)
    requires Fits(c, x) && InLanguage([Many(c)] + items, w)
    ensures InLanguage([Many(c)] + items, [x] + w)
  {
    hide InLanguage;
    var k := UnconsLanguage(Many(c), items, w);
    ConsLanguage(Many(c), items, [x] + w[..k], w[k..]);
    assert [x] + w[..k] + w[k..] == [x] + w;
  }

  lemma ShorterStar(c: char, items: seq<Item>, w: string, k: nat)
    requires 0 < k <= |w| && ItemFits(Many(c), w[..k]) && InLanguage(items, w[k..])
    ensures Fits(c, w[0]) && InLanguage([Many(c)] + items, w[1..])
  {
    hide InLanguage;
    assert w[..k][0] == w[0];
    forall i | 0 <= i < k - 1 ensures Fits(c, w[1..k][i]) {
      assert w[1..k][i] == w[..k][i + 1];
    }
    ConsLanguage(Many(c), items, w[1..k], w[k..]);
    assert w[1..k] + w[k..] == w[1..];
  }

  // ------------------------------------------------------------- reading lines from a file

  const SIZE: nat := 1024

  /** A line of the text that starts at p ends at q. A NUL hides what follows it. */
  ghost predicate LineAt(text: string, p: nat, q: nat) {
    p <= q < |text| && text[q] == '\n' && forall j :: p <= j < q ==> text[j] != '\n' && text[j] != NUL
  }

  /** The matching lines of a text, up to the first line that does not fit the buffer. */
  ghost function Selected(re: string, text: string): string
    decreases |text|
  {
    if k: nat :| k < SIZE - 1 && LineAt(text, 0, k) then
      (if Found(re, text[..k]) then text[..k + 1] else "") + Selected(re, text[k + 1..])
    else ""
  }

  lemma SelectedLine(re: string, text: string, k: nat)
    requires k < SIZE - 1 && LineAt(text, 0, k)
    ensures Selected(re, text) == (if Found(re, text[..k]) then text[..k + 1] else "") + Selected(re, text[k + 1..])
  {
    forall j: nat | j < SIZE - 1 && LineAt(text, 0, j) ensures j == k {
    }
  }

  /** buf holds text from p to m. */
  ghost predicate Holds(buf: array<char>, text: string, p: nat, m: nat)
    reads buf
  {
    p <= m < buf.Length && m <= |text| && buf[m] == NUL && forall j :: p <= j < m ==> buf[j] == text[j]
  }

  /** strchr(p, '\n') */
  method FindNewline(buf: array<char>, p: nat, m: nat, ghost text: string) returns (q: nat, found: bool)
    requires Holds(buf, text, p, m)
    ensures found ==> q < m && LineAt(text, p, q)
    ensures !found ==> forall k: nat :: k < m ==> !LineAt(text, p, k)
  {
    q := p;
    while buf[q] != NUL
      invariant p <= q <= m
      invariant forall j :: p <= j < q ==> text[j] != NUL && text[j] != '\n'
      decreases m - q
    {
      if buf[q] == '\n' {
        return q, true;
      }
      q := q + 1;
    }
    found := false;
  }

  /** Match the line as a string of its own, and write it with its newline if it matches. */
  method WriteLine(re: string, buf: array<char>, p: nat, q: nat, ghost text: string) returns (line: string)
    requires p <= q < buf.Length && q < |text| && text[q] == '\n' && forall j :: p <= j < q ==> buf[j] == text[j]
    modifies buf
    ensures line == if Found(re, text[p..q]) then text[p..q + 1] else ""
    ensures forall j :: 0 <= j < buf.Length && j != q ==> buf[j] == old(buf[j])
  {
    hide Found;
    buf[q] := NUL;
    line := "";
    assert buf[p..q] == text[p..q];
    var matched := Match(re, buf[p..q]);
    if matched {
      buf[q] := '\n';
      line := buf[p..q + 1];
    }
  }

  /** The inner loop of grep: write the matching lines that are complete in buf[..m]. */
  method WriteLines(re: string, buf: array<char>, m: nat, ghost text: string) returns (p: nat, out: string)
    requires buf.Length == SIZE && Holds(buf, text, 0, m)
    modifies buf
    ensures Holds(buf, text, p, m) && out + Selected(re, text[p..]) == Selected(re, text)
    ensures forall k: nat :: k < m ==> !LineAt(text, p, k)
  {
    hide Selected, Found;
    p, out := 0, "";
    var q, found := FindNewline(buf, p, m, text);
    while found
      invariant 0 <= p && 0 <= q && Holds(buf, text, p, m)
      invariant out + Selected(re, text[p..]) == Selected(re, text)
      invariant found ==> q < m && LineAt(text, p, q)
      invariant !found ==> forall k: nat :: k < m ==> !LineAt(text, p, k)
      decreases m - p
    {
      TakeLine(re, text, p, q);
      var line := WriteLine(re, buf, p, q, text);
      assert (out + line) + Selected(re, text[q + 1..]) == out + (line + Selected(re, text[q + 1..]));
      out, p := out + line, q + 1;
      q, found := FindNewline(buf, p, m, text);
    }
  }

  /**
   grep on one file: whatever number of bytes each read returns, what is written is the
   selected lines.
   */
  method GrepFile(re: string, input: string) returns (out: string)
    ensures out == Selected(re, input)
  {
    hide Selected, LineAt;
    var buf := new char[SIZE];
    out := "";
    var m: nat, pos: nat := 0, 0;
    ghost var text := input;
    while true
      invariant m < SIZE && pos <= |input| && m <= |text| && text[m..] == input[pos..]
      invariant forall j :: 0 <= j < m ==> buf[j] == text[j]
      invariant out + Selected(re, text) == Selected(re, input)
      invariant forall k: nat :: k < m ==> !LineAt(text, 0, k)
      decreases |input| - pos
    {
      var n := Read(buf, m, input, pos);
      if n == 0 {
        NothingLeft(re, text, m);
        return;
      }
      Further(text, m, input, pos, n);
      m, pos := m + n, pos + n;
      buf[m] := NUL;
      var p, written := WriteLines(re, buf, m, text);
      NoLine(text, p, m);
      out, text := out + written, text[p..];
      m := m - p;
      Shift(buf, p, m);
    }
  }

  lemma Further(text: string, m: nat, input: string, pos: nat, n: nat)
    requires m <= |text| && pos + n <= |input| && text[m..] == input[pos..]
    ensures m + n <= |text| && text[m + n..] == input[pos + n..]
    ensures forall j :: m <= j < m + n ==> text[j] == input[pos + (j - m)]
  {
    assert text[m + n..] == text[m..][n..] && input[pos + n..] == input[pos..][n..];
    forall j | m <= j < m + n ensures text[j] == input[pos + (j - m)] {
      assert text[j] == text[m..][j - m] == input[pos..][j - m];
    }
  }

  lemma NoLine(text: string, p: nat, m: nat)
    requires p <= m <= |text| && forall k: nat :: k < m ==> !LineAt(text, p, k)
    ensures forall k: nat :: k < m - p ==> !LineAt(text[p..], 0, k)
  {
    forall k: nat | k < m - p ensures !LineAt(text[p..], 0, k) {
      assert !LineAt(text, p, p + k);
      assert forall j :: p <= j <= p + k ==> text[j] == text[p..][j - p];
    }
  }

  /** read: some of the file, none only at its end or when there is no room. */
  method Read(buf: array<char>, m: nat, input: string, pos: nat) returns (n: nat)
    requires buf.Length == SIZE && m < SIZE && pos <= |input|
    modifies buf
    ensures m + n < SIZE && pos + n <= |input| && (n == 0 ==> m == SIZE - 1 || pos == |input|)
    ensures forall j :: 0 <= j < m ==> buf[j] == old(buf[j])
    ensures forall j :: m <= j < m + n ==> buf[j] == input[pos + (j - m)]
  {
    n := 0;
    if m < SIZE - 1 && pos < |input| {
      n :| 0 < n && m + n < SIZE && pos + n <= |input|;
    }
    for i := 0 to n
      invariant forall j :: 0 <= j < m ==> buf[j] == old(buf[j])
      invariant forall j :: m <= j < m + i ==> buf[j] == input[pos + (j - m)]
    {
      buf[m + i] := input[pos + i];
    }
  }

  /** memmove(buf, buf + p, m) */
  method Shift(buf: array<char>, p: nat, m: nat)
    requires p + m <= buf.Length
    modifies buf
    ensures forall j :: 0 <= j < m ==> buf[j] == old(buf[p + j])
  {
    for i := 0 to m
      invariant forall j :: 0 <= j < i ==> buf[j] == old(buf[p + j])
      invariant forall j :: p + i <= j < buf.Length ==> buf[j] == old(buf[j])
    {
      buf[i] := buf[p + i];
    }
  }

  lemma TakeLine(re: string, text: string, p: nat, q: nat)
    requires LineAt(text, p, q) && q < SIZE - 1
    ensures Selected(re, text[p..]) == (if Found(re, text[p..q]) then text[p..q + 1] else "")
            + Selected(re, text[q + 1..])
  {
    var rest, k := text[p..], q - p;
    assert rest[..k] == text[p..q] && rest[..k + 1] == text[p..q + 1] && rest[k + 1..] == text[q + 1..];
    SelectedLine(re, rest, k);
  }

  lemma NothingLeft(re: string, text: string, m: nat)
    requires m <= |text| && (m == |text| || m == SIZE - 1) && forall k: nat :: k < m ==> !LineAt(text, 0, k)
    ensures Selected(re, text) == ""
  {
    forall k: nat | k < SIZE - 1 ensures !LineAt(text, 0, k) {
    }
  }

  // ------------------------------------------------------------ when all lines are selected

  ghost predicate Ordinary(line: string) {
    |line| < SIZE - 1 && forall j :: 0 <= j < |line| ==> line[j] != '\n' && line[j] != NUL
  }

  function Text(lines: seq<string>): string {
    if lines == [] then "" else lines[0] + "\n" + Text(lines[1..])
  }

  ghost function Matching(re: string, lines: seq<string>): seq<string> {
    if lines == [] then []
    else (if Found(re, lines[0]) then [lines[0]] else []) + Matching(re, lines[1..])
  }

  /** On ordinary lines grep writes the matching ones, in order, and never an unfinished last line. */
  lemma {:induction false} OrdinaryLines(re: string, lines: seq<string>, tail: string)
    requires forall i :: 0 <= i < |lines| ==> Ordinary(lines[i])
    requires forall j :: 0 <= j < |tail| ==> tail[j] != '\n'
    ensures Selected(re, Text(lines) + tail) == Text(Matching(re, lines))
  {
    if lines == [] {
      assert Text(lines) + tail == tail;
    } else {
      hide Selected, Found;
      var line, rest := lines[0], Text(lines[1..]) + tail;
      var text, k := Text(lines) + tail, |line|;
      assert text == line + "\n" + rest;
      assert text[..k] == line && text[..k + 1] == line + "\n" && text[k + 1..] == rest;
      forall j | 0 <= j < k ensures text[j] != '\n' && text[j] != NUL {
        assert text[j] == line[j];
      }
      assert LineAt(text, 0, k);
      SelectedLine(re, text, k);
      OrdinaryLines(re, lines[1..], tail);
      var more := Matching(re, lines[1..]);
      assert ([line] + more)[1..] == more && [] + more == more;
      assert Text([line] + more) == line + "\n" + Text(more);
    }
  }

  // ------------------------------------------------------- when some line is not ordinary

  predicate IsLine(line: string) {
    forall j :: 0 <= j < |line| ==> line[j] != '\n'
  }

  ghost predicate AllOrdinary(lines: seq<string>) {
    forall i :: 0 <= i < |lines| ==> Ordinary(lines[i])
  }

  /** grep stops before a line that is not ordinary, whatever follows. */
  lemma {:induction false} StopsAt(re: string, lines: seq<string>, bad: string, rest: string)
    requires AllOrdinary(lines) && IsLine(bad) && !Ordinary(bad)
    ensures Selected(re, Text(lines) + (bad + "\n" + rest)) == Text(Matching(re, lines))
  {
    if lines == [] {
      var text := bad + "\n" + rest;
      assert Text(lines) + text == text;
      forall k: nat | k < SIZE - 1 ensures !LineAt(text, 0, k) {
        NoLineIn(bad, rest, k);
      }
    } else {
      hide Selected, Found;
      var line, tail := lines[0], bad + "\n" + rest;
      var text, k := Text(lines) + tail, |line|;
      var more := Text(lines[1..]) + tail;
      assert text == line + "\n" + more;
      assert text[..k] == line && text[..k + 1] == line + "\n" && text[k + 1..] == more;
      forall j | 0 <= j < k ensures text[j] != '\n' && text[j] != NUL {
        assert text[j] == line[j];
      }
      assert LineAt(text, 0, k);
      SelectedLine(re, text, k);
      StopsAt(re, lines[1..], bad, rest);
      MatchingCons(re, lines);
    }
  }

  lemma MatchingCons(re: string, lines: seq<string>)
    requires lines != []
    ensures Text(Matching(re, lines)) ==
            (if Found(re, lines[0]) then lines[0] + "\n" else "") + Text(Matching(re, lines[1..]))
  {
    hide Found;
    var more := Matching(re, lines[1..]);
    assert ([lines[0]] + more)[1..] == more && [] + more == more;
  }

  /** A line that is not ordinary is too long or has a NUL before its end. */
  lemma NoLineIn(bad: string, rest: string, k: nat)
    requires IsLine(bad) && !Ordinary(bad) && k < SIZE - 1
    ensures !LineAt(bad + "\n" + rest, 0, k)
  {
    var text := bad + "\n" + rest;
    assert forall j :: 0 <= j < |bad| ==> text[j] == bad[j];
    if |bad| < SIZE - 1 {
      var j :| 0 <= j < |bad| && bad[j] == NUL;
      assert text[j] == NUL && text[|bad|] == '\n';
    }
  }

  lemma {:induction false} TextSplit(lines: seq<string>, i: nat)
    requires i <= |lines|
    ensures Text(lines) == Text(lines[..i]) + Text(lines[i..])
  {
    if i == 0 {
      assert lines[..0] == [] && lines[0..] == lines;
    } else {
      TextSplit(lines[1..], i - 1);
      assert lines[..i][1..] == lines[1..][..i - 1] && lines[i..] == lines[1..][i - 1..];
    }
  }

  lemma {:induction false} MatchingSplit(re: string, lines: seq<string>, i: nat)
    requires i <= |lines|
    ensures Matching(re, lines) == Matching(re, lines[..i]) + Matching(re, lines[i..])
  {
    hide Found;
    if i == 0 {
      assert lines[..0] == [] && lines[0..] == lines;
    } else {
      MatchingSplit(re, lines[1..], i - 1);
      assert lines[..i][1..] == lines[1..][..i - 1] && lines[i..] == lines[1..][i - 1..];
    }
  }

  lemma TextIsLong(lines: seq<string>)
    ensures Text(lines) == "" <==> lines == []
  {
  }

  /** The first line that is not ordinary, if there is one. */
  ghost predicate FirstBad(lines: seq<string>, i: nat) {
    i < |lines| && !Ordinary(lines[i]) && AllOrdinary(lines[..i])
  }

  /**
   With its first line that is not ordinary at i, a file gives the matching lines before it. So
   all matching lines are written exactly when none is at i or later.
   */
  lemma LostLines(re: string, lines: seq<string>, i: nat)
    requires FirstBad(lines, i) && forall j :: 0 <= j < |lines| ==> IsLine(lines[j])
    ensures Selected(re, Text(lines)) == Text(Matching(re, lines[..i]))
    ensures Selected(re, Text(lines)) == Text(Matching(re, lines)) <==> Matching(re, lines[i..]) == []
  {
    hide Selected, Found;
    TextSplit(lines, i);
    assert lines[i..][0] == lines[i] && lines[i..][1..] == lines[i + 1..];
    assert Text(lines[i..]) == lines[i] + "\n" + Text(lines[i + 1..]);
    StopsAt(re, lines[..i], lines[i], Text(lines[i + 1..]));
    MatchingSplit(re, lines, i);
    var a, b := Matching(re, lines[..i]), Matching(re, lines[i..]);
    TextSplit(a + b, |a|);
    assert (a + b)[..|a|] == a && (a + b)[|a|..] == b;
    TextIsLong(b);
    assert |Text(a + b)| == |Text(a)| + |Text(b)|;
  }

  lemma {:induction false} FindBad(lines: seq<string>) returns (i: nat)
    requires !AllOrdinary(lines)
    ensures FirstBad(lines, i)
  {
    if !Ordinary(lines[0]) {
      i := 0;
    } else {
      var j :| 0 <= j < |lines| && !Ordinary(lines[j]);
      assert lines[1..][j - 1] == lines[j];
      var k := FindBad(lines[1..]);
      i := k + 1;
      forall m | 0 <= m < i ensures Ordinary(lines[..i][m]) {
        if m > 0 {
          assert lines[1..][..k][m - 1] == lines[..i][m];
        }
      }
    }
  }

  /** The empty pattern matches every line. */
  lemma EmptyMatches(text: string)
    ensures Found("", text)
  {
    hide FoundAt;
    HereMeans("", text[0..]);
  }

  lemma {:induction false} EmptySelectsAll(lines: seq<string>)
    ensures Matching("", lines) == lines
  {
    hide Found;
    if lines != [] {
      EmptyMatches(lines[0]);
      EmptySelectsAll(lines[1..]);
    }
  }

  ghost predicate Faithful(lines: seq<string>) {
    forall re: string :: Selected(re, Text(lines)) == Text(Matching(re, lines))
  }

  /** grep writes all matching lines of a file, for every pattern, exactly when each line is ordinary. */
  lemma WritesAllIffOrdinary(lines: seq<string>)
    requires forall j :: 0 <= j < |lines| ==> IsLine(lines[j])
    ensures Faithful(lines) <==> AllOrdinary(lines)
  {
    hide Selected, Found, Ordinary;
    if AllOrdinary(lines) {
      forall re: string ensures Selected(re, Text(lines)) == Text(Matching(re, lines)) {
        OrdinaryLines(re, lines, "");
        assert Text(lines) + "" == Text(lines);
      }
    } else {
      var i := FindBad(lines);
      LostLines("", lines, i);
      EmptySelectsAll(lines[i..]);
    }
  }

  /** A line of 1023 bytes, and a line that matches behind it: nothing is written. */
  lemma LongLineHidesMatch(long: string)
    requires |long| == 1023 && IsLine(long)
    ensures Found("", "b") && Selected("", Text([long, "b"])) == ""
    ensures Text(Matching("", [long, "b"])) != ""
  {
    hide Selected, Found;
    var lines := [long, "b"];
    assert lines[..0] == [];
    LostLines("", lines, 0);
    EmptyMatches("b");
    EmptySelectsAll(lines);
  }
}
