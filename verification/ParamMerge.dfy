/** Adding a template's missing keys to a user's parameter file, line by line, so that
    nothing the user wrote is touched. */
module ParamMerge {

  datatype Option<T> = None | Some(value: T)

  type Lines = seq<string>

  /* ---- reading one line ---- */

  predicate IsSpace(c: char) { c == ' ' || '\t' <= c <= '\r' || 28 <= c as int <= 31 }

  function RStrip(s: string): string {
    if s != "" && IsSpace(s[|s| - 1]) then RStrip(s[..|s| - 1]) else s
  }

  function LStrip(s: string): string {
    if s != "" && IsSpace(s[0]) then LStrip(s[1..]) else s
  }

  function Strip(s: string): string { LStrip(RStrip(s)) }

  /** What precedes the first colon. */
  function BeforeColon(s: string): string {
    if s == "" || s[0] == ':' then "" else [s[0]] + BeforeColon(s[1..])
  }

  /** The name of a node whose header this line is. */
  function TopKey(line: string): Option<string> {
    var stripped := RStrip(line);
    if line != "" && line[0] !in {' ', '\t', '#'} && stripped != "" && stripped[|stripped| - 1] == ':'
    then Some(Strip(BeforeColon(line))) else None
  }

  /** The name of a key this line sets, two spaces in. */
  function SubKey(line: string): Option<string> {
    if |line| >= 3 && line[..2] == "  " && line[2] !in {' ', '#'} then
      var stripped := Strip(line);
      if ':' in stripped && stripped[0] != '#' then Some(Strip(BeforeColon(stripped))) else None
    else None
  }

  predicate IsHeader(line: string) { TopKey(line).Some? }

  /** The name of the entry an unindented line opens, whatever follows its colon; blank
      lines and comments open none.  Headers are those that end in a colon. */
  function TopName(line: string): Option<string> {
    if line != "" && line[0] !in {' ', '\t', '#'} && RStrip(line) != "" then Some(Strip(BeforeColon(line))) else None
  }

  lemma HeadersAreNamed(line: string)
    ensures IsHeader(line) ==> TopName(line) == TopKey(line)
  {
  }

  /** Deeper than a key: it continues the key above. */
  predicate Continues(line: string) {
    Strip(line) != "" && !IsHeader(line) && SubKey(line).None? && |line| >= 3 && line[..3] == "   "
  }

  lemma KeysOpenNoEntry(line: string)
    requires SubKey(line).Some? || Continues(line)
    ensures TopName(line).None?
  {
    if SubKey(line).Some? {
      assert line[0] == line[..2][0] == ' ';
    } else {
      assert line[0] == line[..3][0] == ' ';
    }
  }

  /* ---- what these read ---- */

  /** The white space of ASCII: space, tab to carriage return, and the four separators. */
  lemma SpaceSet(c: char)
    ensures IsSpace(c) <==> c as int in {9, 10, 11, 12, 13, 28, 29, 30, 31, 32}
  {
  }

  predicate Blank(s: string) { forall i :: 0 <= i < |s| ==> IsSpace(s[i]) }

  predicate Bare(s: string) { s != "" ==> !IsSpace(s[0]) && !IsSpace(s[|s| - 1]) }

  lemma {:induction false} RStripMeans(s: string)
    ensures RStrip(s) <= s && Blank(s[|RStrip(s)|..])
    ensures RStrip(s) != "" ==> !IsSpace(RStrip(s)[|RStrip(s)| - 1])
    decreases |s|
  {
    if s != "" && IsSpace(s[|s| - 1]) {
      var front := s[..|s| - 1];
      RStripMeans(front);
      var n := |RStrip(front)|;
      assert s[n..] == front[n..] + [s[|s| - 1]];
    }
  }

  lemma {:induction false} LStripMeans(s: string)
    ensures |LStrip(s)| <= |s| && LStrip(s) == s[|s| - |LStrip(s)|..] && Blank(s[..|s| - |LStrip(s)|])
    ensures LStrip(s) != "" ==> !IsSpace(LStrip(s)[0])
    decreases |s|
  {
    if s != "" && IsSpace(s[0]) {
      LStripMeans(s[1..]);
      var n := |s| - |LStrip(s)|;
      assert s[..n] == [s[0]] + s[1..][..n - 1];
    }
  }

  /** Stripping removes the white space around a line and nothing else. */
  lemma StripMeans(s: string)
    ensures Bare(Strip(s))
    ensures exists a, b :: s == a + Strip(s) + b && Blank(a) && Blank(b)
  {
    var r := RStrip(s);
    RStripMeans(s);
    LStripMeans(r);
    var n := |r| - |LStrip(r)|;
    assert s == r[..n] + Strip(s) + s[|r|..];
    assert Strip(s) != "" ==> Strip(s)[|Strip(s)| - 1] == r[|r| - 1];
  }

  lemma {:induction false} BeforeColonMeans(s: string)
    ensures BeforeColon(s) <= s && ':' !in BeforeColon(s)
    ensures BeforeColon(s) != s ==> s[|BeforeColon(s)|] == ':'
    decreases |s|
  {
    if s != "" && s[0] != ':' {
      BeforeColonMeans(s[1..]);
    }
  }

  lemma {:induction false} UpToColon(name: string, rest: string)
    requires ':' !in name
    ensures BeforeColon(name + ":" + rest) == name
    decreases |name|
  {
    var s := name + ":" + rest;
    if name != "" {
      assert s[1..] == name[1..] + ":" + rest;
      UpToColon(name[1..], rest);
    }
  }

  lemma {:induction false} RStripAfter(x: string, y: string)
    requires x != "" && !IsSpace(x[|x| - 1])
    ensures RStrip(x + y) == x + RStrip(y)
    decreases |y|
  {
    if y == "" {
      assert x + y == x;
    } else if IsSpace(y[|y| - 1]) {
      assert (x + y)[..|x + y| - 1] == x + y[..|y| - 1];
      RStripAfter(x, y[..|y| - 1]);
    }
  }

  lemma {:induction false} AllStripped(s: string)
    requires Blank(s)
    ensures RStrip(s) == ""
    decreases |s|
  {
    if s != "" {
      AllStripped(s[..|s| - 1]);
    }
  }

  /** An unindented name with a colon is a header exactly if only white space follows; the
      entry it opens has that name in any case. */
  lemma HeaderReads(name: string, rest: string)
    requires name != "" && name[0] !in {' ', '\t', '#'} && ':' !in name && ':' !in rest
    ensures TopName(name + ":" + rest) == Some(Strip(name))
    ensures TopKey(name + ":" + rest) == if Blank(rest) then Some(Strip(name)) else None
  {
    var line := name + ":" + rest;
    UpToColon(name, rest);
    assert (name + ":")[|name|] == ':';
    RStripAfter(name + ":", rest);
    RStripMeans(rest);
    if Blank(rest) {
      AllStripped(rest);
    } else {
      var r := RStrip(rest);
      assert rest[0..] == rest;
      assert RStrip(line)[|RStrip(line)| - 1] == r[|r| - 1];
      assert r[|r| - 1] in rest;
    }
    hide Strip;
  }

  /** Two spaces, a name and a colon set a key of that name, whatever follows; a comment
      there, or a name further in, sets none. */
  lemma KeyReads(key: string, rest: string)
    requires (key != "" ==> !IsSpace(key[0])) && ':' !in key
    ensures SubKey("  " + key + ":" + rest) == if key != "" && key[0] == '#' then None else Some(Strip(key))
    ensures SubKey("   " + key + ":" + rest) == None && Continues("   " + key + ":" + rest)
  {
    var text := key + ":";
    var line, deep := "  " + text + rest, "   " + text + rest;
    assert line == "  " + key + ":" + rest && deep == "   " + key + ":" + rest;
    assert line[2] == text[0] && line[..2] == "  " && deep[2] == ' ' && deep[..3] == "   ";
    assert text[|key|] == ':';
    RStripAfter("  " + text, rest);
    RStripAfter("   " + text, rest);
    var body := text + RStrip(rest);
    assert RStrip(line) == "  " + body && RStrip(deep) == "   " + body;
    Indented("  ", body);
    Indented("   ", body);
    assert Strip(line) == body && Strip(deep) == body;
    assert body == key + ":" + RStrip(rest);
    UpToColon(key, RStrip(rest));
    assert ':' in body && body[0] == text[0];
    hide Strip, RStrip;
  }

  lemma {:induction false} Indented(spaces: string, body: string)
    requires Blank(spaces) && body != "" && !IsSpace(body[0])
    ensures LStrip(spaces + body) == body
    decreases |spaces|
  {
    if spaces == "" {
      assert spaces + body == body;
    } else {
      assert (spaces + body)[1..] == spaces[1..] + body;
      Indented(spaces[1..], body);
    }
  }

  /* ---- blocks ---- */

  /** The first header at or after a line, or the end of the file. */
  function NextHeader(lines: Lines, k: nat): (h: nat)
    requires k <= |lines|
    ensures k <= h <= |lines|
    decreases |lines| - k
  {
    if k == |lines| || IsHeader(lines[k]) then k else NextHeader(lines, k + 1)
  }

  /** The end of a key's lines, given where the search goes on. */
  function SpanEnd(lines: Lines, b: nat): (e: nat)
    requires b <= |lines|
    ensures b <= e <= |lines|
    decreases |lines| - b
  {
    if b < |lines| && Continues(lines[b]) then SpanEnd(lines, b + 1) else b
  }

  lemma {:induction false} NextHeaderIsFirst(lines: Lines, k: nat)
    requires k <= |lines|
    ensures forall i :: k <= i < NextHeader(lines, k) ==> !IsHeader(lines[i])
    ensures NextHeader(lines, k) < |lines| ==> IsHeader(lines[NextHeader(lines, k)])
    decreases |lines| - k
  {
    hide TopKey;
    if k < |lines| && !IsHeader(lines[k]) {
      NextHeaderIsFirst(lines, k + 1);
    }
  }

  lemma {:induction false} SpanIsInside(lines: Lines, b: nat)
    requires b <= |lines|
    ensures SpanEnd(lines, b) <= NextHeader(lines, b)
    ensures forall i :: b <= i < SpanEnd(lines, b) ==> Continues(lines[i])
    decreases |lines| - b
  {
    hide Strip, TopKey, SubKey;
    NextHeaderIsFirst(lines, b);
    if b < |lines| && Continues(lines[b]) {
      SpanIsInside(lines, b + 1);
    }
  }

  datatype Span = Span(from: nat, to: nat)

  datatype Block = Block(start: nat, end: nat, keys: map<string, Span>, contentEnd: nat)

  /** A node's end: the next header, except that a header directly followed by another
      keeps the end of the file. */
  function BlockEnd(lines: Lines, start: nat): nat
    requires start < |lines|
  {
    var next := NextHeader(lines, start + 1);
    if next == start + 1 then |lines| else next
  }

  /** The keys found in the lines from after `start` up to `upto`: each at its last
      occurrence, with the lines that continue it. */
  ghost predicate KeysUpTo(lines: Lines, start: nat, upto: nat, keys: map<string, Span>)
    requires start < upto <= |lines|
  {
    && (forall k :: k in keys ==>
          && start < keys[k].from < upto
          && SubKey(lines[keys[k].from]) == Some(k)
          && keys[k].to == SpanEnd(lines, keys[k].from + 1))
    && (forall i :: start < i < upto && SubKey(lines[i]).Some? ==>
          SubKey(lines[i]).value in keys && i <= keys[SubKey(lines[i]).value].from)
  }

  /** The block of a node whose last header is at `start`. */
  ghost predicate BlockOf(lines: Lines, name: string, b: Block) {
    && b.start < |lines| && TopKey(lines[b.start]) == Some(name)
    && (forall i :: b.start < i < |lines| ==> TopKey(lines[i]) != Some(name))
    && b.end == BlockEnd(lines, b.start)
    && b.start < NextHeader(lines, b.start + 1) <= |lines|
    && KeysUpTo(lines, b.start, NextHeader(lines, b.start + 1), b.keys)
  }

  /** The insertion point: after the last line of any key, or right after the header. */
  ghost predicate ContentEnd(b: Block) {
    && (forall k :: k in b.keys ==> b.keys[k].to <= b.contentEnd)
    && (if b.keys == map[] then b.contentEnd == b.start + 1
        else exists k :: k in b.keys && b.contentEnd == b.keys[k].to)
  }

  ghost predicate Parsed(lines: Lines, nodes: map<string, Block>) {
    && (forall i :: 0 <= i < |lines| && IsHeader(lines[i]) ==> TopKey(lines[i]).value in nodes)
    && (forall n :: n in nodes ==> BlockOf(lines, n, nodes[n]) && ContentEnd(nodes[n]))
  }

  lemma {:induction false} SameNext(lines: Lines, k: nat, m: nat)
    requires k <= |lines| && k <= m <= NextHeader(lines, k)
    ensures NextHeader(lines, m) == NextHeader(lines, k)
    decreases m - k
  {
    hide TopKey;
    if k < m {
      SameNext(lines, k + 1, m);
    }
  }

  /** A key of a block: where it stands and how far it goes. */
  lemma KeyFacts(lines: Lines, n: string, b: Block, key: string)
    requires BlockOf(lines, n, b) && key in b.keys
    ensures var s := b.keys[key];
            && b.start < s.from < NextHeader(lines, b.start + 1) <= |lines|
            && SubKey(lines[s.from]).Some? && s.to == SpanEnd(lines, s.from + 1)
  {
    hide TopKey, SubKey, NextHeader, SpanEnd;
  }

  lemma KeyInside(lines: Lines, n: string, b: Block, key: string)
    requires BlockOf(lines, n, b) && key in b.keys
    ensures b.start < b.keys[key].from < b.keys[key].to <= NextHeader(lines, b.start + 1)
  {
    hide TopKey, SubKey, NextHeader, SpanEnd, BlockOf, Continues;
    KeyFacts(lines, n, b, key);
    var s := b.keys[key];
    SpanIsInside(lines, s.from + 1);
    assert b.start + 1 <= |lines|;
    SameNext(lines, b.start + 1, s.from + 1);
  }

  /** The insertion point lies after the node's own header and not after the next. */
  lemma ContentEndInside(lines: Lines, n: string, b: Block)
    requires BlockOf(lines, n, b) && ContentEnd(b)
    ensures b.start < b.contentEnd <= NextHeader(lines, b.start + 1)
    ensures forall i :: b.start < i < b.contentEnd ==> !IsHeader(lines[i])
  {
    hide TopKey, SubKey, NextHeader, SpanEnd, Continues, KeysUpTo;
    NextHeaderIsFirst(lines, b.start + 1);
    if b.keys != map[] {
      var k :| k in b.keys && b.contentEnd == b.keys[k].to;
      KeyInside(lines, n, b, k);
    }
  }

  /** A key's template lines are the key's line and what continues it: none of them
      opens another entry of the file. */
  lemma SpanHasNoName(lines: Lines, n: string, b: Block, key: string)
    requires BlockOf(lines, n, b) && key in b.keys
    ensures var s := b.keys[key];
            s.from < s.to <= |lines| && forall i :: s.from <= i < s.to ==> TopName(lines[i]).None?
  {
    hide TopKey, TopName, SubKey, NextHeader, SpanEnd, BlockOf, Continues;
    KeyFacts(lines, n, b, key);
    var s := b.keys[key];
    SpanIsInside(lines, s.from + 1);
    forall i | s.from <= i < s.to
      ensures TopName(lines[i]).None?
    {
      KeysOpenNoEntry(lines[i]);
    }
  }

  /* ---- parse_blocks ---- */

  /** The block being read: everything since its header, and its end so far. */
  ghost predicate OpenBlock(lines: Lines, i: nat, n: string, b: Block) {
    && b.start < i <= |lines| && TopKey(lines[b.start]) == Some(n)
    && (forall j :: b.start < j < i ==> !IsHeader(lines[j]))
    && b.end == (if i == b.start + 1 then |lines| else i)
    && KeysUpTo(lines, b.start, i, b.keys)
  }

  /** A block read to its end, whose name has not come again. */
  ghost predicate ClosedBlock(lines: Lines, i: nat, n: string, b: Block) {
    && b.start < i <= |lines| && TopKey(lines[b.start]) == Some(n)
    && (forall j :: b.start < j < i ==> TopKey(lines[j]) != Some(n))
    && b.start < NextHeader(lines, b.start + 1) < i
    && b.end == BlockEnd(lines, b.start)
    && KeysUpTo(lines, b.start, NextHeader(lines, b.start + 1), b.keys)
  }

  lemma {:induction false} NextHeaderAt(lines: Lines, k: nat, i: nat)
    requires k <= i <= |lines| && (forall j :: k <= j < i ==> !IsHeader(lines[j]))
    requires i < |lines| ==> IsHeader(lines[i])
    ensures NextHeader(lines, k) == i
    decreases i - k
  {
    hide TopKey;
    if k < i {
      NextHeaderAt(lines, k + 1, i);
    }
  }

  lemma Closes(lines: Lines, i: nat, n: string, b: Block)
    requires OpenBlock(lines, i, n, b) && i < |lines| && IsHeader(lines[i]) && TopKey(lines[i]) != Some(n)
    ensures ClosedBlock(lines, i + 1, n, b)
  {
    hide TopKey, NextHeader, KeysUpTo;
    NextHeaderAt(lines, b.start + 1, i);
  }

  lemma StaysClosed(lines: Lines, i: nat, n: string, b: Block)
    requires ClosedBlock(lines, i, n, b) && i < |lines| && TopKey(lines[i]) != Some(n)
    ensures ClosedBlock(lines, i + 1, n, b)
  {
    hide TopKey, NextHeader, KeysUpTo;
  }

  /** The keys after one more line. */
  function NextKeys(lines: Lines, i: nat, keys: map<string, Span>): map<string, Span>
    requires i < |lines|
  {
    if SubKey(lines[i]).Some? then keys[SubKey(lines[i]).value := Span(i, SpanEnd(lines, i + 1))] else keys
  }

  lemma KeysStep(lines: Lines, start: nat, i: nat, keys: map<string, Span>)
    requires start < i < |lines| && KeysUpTo(lines, start, i, keys)
    ensures KeysUpTo(lines, start, i + 1, NextKeys(lines, i, keys))
  {
    hide SubKey, SpanEnd;
  }

  lemma StaysOpen(lines: Lines, i: nat, n: string, b: Block)
    requires OpenBlock(lines, i, n, b) && i < |lines| && !IsHeader(lines[i])
    ensures OpenBlock(lines, i + 1, n, b.(end := i + 1, keys := NextKeys(lines, i, b.keys)))
  {
    hide TopKey, KeysUpTo, NextKeys;
    KeysStep(lines, b.start, i, b.keys);
  }

  lemma Opens(lines: Lines, i: nat, n: string)
    requires i < |lines| && TopKey(lines[i]) == Some(n)
    ensures OpenBlock(lines, i + 1, n, Block(i, |lines|, map[], 0))
  {
  }

  lemma FileEnds(lines: Lines, n: string, b: Block)
    requires OpenBlock(lines, |lines|, n, b) || ClosedBlock(lines, |lines|, n, b)
    ensures BlockOf(lines, n, b)
  {
    hide TopKey, NextHeader, KeysUpTo;
    if OpenBlock(lines, |lines|, n, b) {
      NextHeaderAt(lines, b.start + 1, |lines|);
    }
  }

  /** The state of the scan before line i. */
  ghost predicate Scanned(lines: Lines, i: nat, nodes: map<string, Block>, cur: Option<string>) {
    && i <= |lines|
    && (cur.None? ==> nodes == map[]) && (cur.Some? ==> cur.value in nodes)
    && (forall j :: 0 <= j < i && IsHeader(lines[j]) ==> TopKey(lines[j]).value in nodes)
    && (forall n :: n in nodes ==>
          if Some(n) == cur then OpenBlock(lines, i, n, nodes[n]) else ClosedBlock(lines, i, n, nodes[n]))
  }

  lemma CurrentIsKnown(lines: Lines, i: nat, nodes: map<string, Block>, cur: Option<string>)
    requires Scanned(lines, i, nodes, cur) && cur.Some?
    ensures cur.value in nodes
  {
  }

  lemma HeaderLine(lines: Lines, i: nat, nodes: map<string, Block>, cur: Option<string>, n: string)
    requires Scanned(lines, i, nodes, cur) && i < |lines| && TopKey(lines[i]) == Some(n)
    ensures Scanned(lines, i + 1, nodes[n := Block(i, |lines|, map[], 0)], Some(n))
  {
    hide TopKey, OpenBlock, ClosedBlock;
    var next := nodes[n := Block(i, |lines|, map[], 0)];
    forall m | m in next
      ensures if m == n then OpenBlock(lines, i + 1, m, next[m]) else ClosedBlock(lines, i + 1, m, next[m])
    {
      if m == n {
        Opens(lines, i, n);
      } else if Some(m) == cur {
        Closes(lines, i, m, nodes[m]);
      } else {
        StaysClosed(lines, i, m, nodes[m]);
      }
    }
  }

  lemma OtherLine(lines: Lines, i: nat, nodes: map<string, Block>, cur: Option<string>)
    requires Scanned(lines, i, nodes, cur) && i < |lines| && TopKey(lines[i]).None?
    ensures cur.None? ==> Scanned(lines, i + 1, nodes, cur)
    ensures cur.Some? ==>
              var b := nodes[cur.value];
              Scanned(lines, i + 1, nodes[cur.value := b.(end := i + 1, keys := NextKeys(lines, i, b.keys))], cur)
  {
    hide TopKey, OpenBlock, ClosedBlock, NextKeys;
    forall m | m in nodes
      ensures if Some(m) == cur
              then OpenBlock(lines, i + 1, m, nodes[m].(end := i + 1, keys := NextKeys(lines, i, nodes[m].keys)))
              else ClosedBlock(lines, i + 1, m, nodes[m])
    {
      if Some(m) == cur {
        StaysOpen(lines, i, m, nodes[m]);
      } else {
        StaysClosed(lines, i, m, nodes[m]);
      }
    }
  }

  /** The lines a key at line a takes, continuation lines included. */
  method KeySpan(lines: Lines, a: nat) returns (s: Span)
    requires a < |lines|
    ensures s == Span(a, SpanEnd(lines, a + 1))
  {
    hide TopKey, SubKey, Strip;
    var b := a + 1;
    while b < |lines|
      invariant a < b <= |lines| && SpanEnd(lines, b) == SpanEnd(lines, a + 1)
    {
      var next := lines[b];
      if Strip(next) == "" || TopKey(next).Some? || SubKey(next).Some? {
        break;
      }
      if |next| >= 3 && next[..3] == "   " {
        b := b + 1;
      } else {
        break;
      }
    }
    s := Span(a, b);
  }

  method LastKeyEnd(b: Block) returns (e: nat)
    ensures ContentEnd(b.(contentEnd := e))
  {
    e := b.start + 1;
    var left, first := b.keys.Keys, true;
    while left != {}
      invariant left <= b.keys.Keys && (first <==> left == b.keys.Keys)
      invariant first ==> e == b.start + 1
      invariant !first ==> exists k :: k in b.keys && e == b.keys[k].to
      invariant forall k :: k in b.keys && k !in left ==> b.keys[k].to <= e
    {
      var k :| k in left;
      if first || e < b.keys[k].to {
        e := b.keys[k].to;
      }
      left, first := left - {k}, false;
    }
  }

  method ParseBlocks(lines: Lines) returns (nodes: map<string, Block>)
    ensures Parsed(lines, nodes)
  {
    nodes := map[];
    var cur: Option<string> := None;
    assert Scanned(lines, 0, nodes, cur);
    hide TopKey, SubKey, Scanned, SpanEnd;
    for i := 0 to |lines|
      invariant Scanned(lines, i, nodes, cur)
    {
      var header := TopKey(lines[i]);
      if header.Some? {
        HeaderLine(lines, i, nodes, cur, header.value);
        cur := header;
        nodes := nodes[header.value := Block(i, |lines|, map[], 0)];
        continue;
      }
      OtherLine(lines, i, nodes, cur);
      if cur.Some? {
        CurrentIsKnown(lines, i, nodes, cur);
        var b := nodes[cur.value];
        var key := SubKey(lines[i]);
        var keys := b.keys;
        if key.Some? {
          var span := KeySpan(lines, i);
          keys := keys[key.value := span];
        }
        nodes := nodes[cur.value := b.(end := i + 1, keys := keys)];
      }
    }
    nodes := SetContentEnds(lines, nodes, cur);
  }

  method SetContentEnds(lines: Lines, nodes: map<string, Block>, ghost cur: Option<string>)
    returns (done: map<string, Block>)
    requires Scanned(lines, |lines|, nodes, cur)
    ensures Parsed(lines, done)
  {
    hide TopKey, OpenBlock, ClosedBlock, BlockOf, ContentEnd;
    done := nodes;
    var left := nodes.Keys;
    while left != {}
      invariant left <= nodes.Keys == done.Keys
      invariant forall n :: n in nodes ==> done[n] == nodes[n].(contentEnd := done[n].contentEnd)
      invariant forall n :: n in nodes && n !in left ==> ContentEnd(done[n])
    {
      var n :| n in left;
      var e := LastKeyEnd(nodes[n]);
      done := done[n := nodes[n].(contentEnd := e)];
      left := left - {n};
    }
    forall n | n in done
      ensures BlockOf(lines, n, done[n])
    {
      FileEnds(lines, n, nodes[n]);
      SameBlock(lines, n, nodes[n], done[n].contentEnd);
    }
  }

  lemma SameBlock(lines: Lines, n: string, b: Block, e: nat)
    requires BlockOf(lines, n, b)
    ensures BlockOf(lines, n, b.(contentEnd := e))
  {
    hide TopKey, NextHeader, KeysUpTo;
  }

  /* ---- what to insert ---- */

  /** A parsed value under a node: a mapping, a text, a list, or something `in` does not
      work on. */
  datatype Yaml = Mapping(keys: seq<string>) | Text(text: string) | Items(items: seq<string>) | Scalar

  datatype Origin = NewNode(node: string) | NewKey(node: string, key: string)

  datatype Insert = Insert(pos: nat, lines: Lines, origin: Origin)

  /** The inserts, or the exception that stops the program before it writes. */
  datatype Plan = Planned(inserts: seq<Insert>) | KeyError | TypeError

  predicate Within(key: string, text: string) {
    key <= text || (text != "" && Within(key, text[1..]))
  }

  predicate StandsAt(key: string, text: string, i: nat) { i + |key| <= |text| && text[i..i + |key|] == key }

  lemma StandsLater(key: string, text: string, i: nat)
    requires text != ""
    ensures StandsAt(key, text[1..], i) <==> StandsAt(key, text, i + 1)
  {
    if i + 1 + |key| <= |text| {
      assert text[1..][i..i + |key|] == text[i + 1..i + 1 + |key|];
    }
  }

  lemma StandsFirst(key: string, text: string)
    ensures StandsAt(key, text, 0) <==> key <= text
  {
  }

  lemma {:induction false} WithinMeans(key: string, text: string)
    ensures Within(key, text) <==> exists i: nat :: StandsAt(key, text, i)
    decreases |text|
  {
    hide StandsAt;
    StandsFirst(key, text);
    if text != "" {
      WithinMeans(key, text[1..]);
      if i: nat :| StandsAt(key, text[1..], i) {
        StandsLater(key, text, i);
      }
      if i: nat :| StandsAt(key, text, i) && i > 0 {
        StandsLater(key, text, i - 1);
      }
    } else {
      NothingStands(key);
    }
  }

  lemma NothingStands(key: string)
    ensures (exists i: nat :: StandsAt(key, "", i)) <==> key == ""
  {
    if key == "" { assert StandsAt(key, "", 0); }
  }

  /** `key in value` */
  predicate Has(value: Yaml, key: string) {
    match value
    case Mapping(keys) => key in keys
    case Text(text) => Within(key, text)
    case Items(items) => key in items
    case Scalar => false
  }

  function Then(first: Plan, second: Plan): Plan {
    if !first.Planned? then first
    else if !second.Planned? then second
    else Planned(first.inserts + second.inserts)
  }

  function SliceOf(lines: Lines, from: nat, to: nat): Lines {
    if from <= to <= |lines| then lines[from..to] else []
  }

  /** The template's text and blocks, and the user's. */
  datatype Files = Files(
    template: Lines,
    templateBlocks: map<string, Block>,
    user: Lines,
    userBlocks: map<string, Block>)

  function KeyPlan(f: Files, node: string, at: nat, value: Yaml, key: string): Plan {
    if value.Scalar? then TypeError
    else if Has(value, key) then Planned([])
    else if node !in f.templateBlocks then KeyError
    else if key !in f.templateBlocks[node].keys then Planned([])
    else
      var s := f.templateBlocks[node].keys[key];
      Planned([Insert(at, SliceOf(f.template, s.from, s.to), NewKey(node, key))])
  }

  function KeysPlan(f: Files, node: string, at: nat, value: Yaml, keys: seq<string>): Plan {
    if keys == [] then Planned([])
    else Then(KeysPlan(f, node, at, value, keys[..|keys| - 1]), KeyPlan(f, node, at, value, keys[|keys| - 1]))
  }

  function NodePlan(f: Files, node: string, wanted: Yaml, user: map<string, Yaml>): Plan {
    if node !in user then
      if node !in f.templateBlocks then KeyError
      else
        var b := f.templateBlocks[node];
        Planned([Insert(|f.user|, [""] + SliceOf(f.template, b.start, b.end), NewNode(node))])
    else if !wanted.Mapping? then Planned([])
    else if node !in f.userBlocks then KeyError
    else KeysPlan(f, node, f.userBlocks[node].contentEnd, user[node], wanted.keys)
  }

  function FilePlan(f: Files, wanted: seq<(string, Yaml)>, user: map<string, Yaml>): Plan {
    if wanted == [] then Planned([])
    else
      var last := wanted[|wanted| - 1];
      Then(FilePlan(f, wanted[..|wanted| - 1], user), NodePlan(f, last.0, last.1, user))
  }

  /** The loops of main that collect the inserts; an exception ends them at once. */
  method Collect(f: Files, wanted: seq<(string, Yaml)>, user: map<string, Yaml>) returns (plan: Plan)
    ensures plan == FilePlan(f, wanted, user)
  {
    plan := Planned([]);
    for i := 0 to |wanted|
      invariant plan == FilePlan(f, wanted[..i], user)
    {
      assert wanted[..i + 1][..i] == wanted[..i];
      if plan.Planned? {
        var one := CollectNode(f, wanted[i].0, wanted[i].1, user);
        plan := if one.Planned? then Planned(plan.inserts + one.inserts) else one;
      }
    }
    assert wanted[..|wanted|] == wanted;
  }

  method CollectNode(f: Files, node: string, wanted: Yaml, user: map<string, Yaml>) returns (plan: Plan)
    ensures plan == NodePlan(f, node, wanted, user)
  {
    if node !in user {
      if node !in f.templateBlocks {
        return KeyError;
      }
      var b := f.templateBlocks[node];
      return Planned([Insert(|f.user|, [""] + SliceOf(f.template, b.start, b.end), NewNode(node))]);
    }
    if !wanted.Mapping? {
      return Planned([]);
    }
    if node !in f.userBlocks {
      return KeyError;
    }
    var at, keys := f.userBlocks[node].contentEnd, wanted.keys;
    plan := Planned([]);
    for i := 0 to |keys|
      invariant plan == KeysPlan(f, node, at, user[node], keys[..i])
    {
      assert keys[..i + 1][..i] == keys[..i];
      if plan.Planned? {
        var one := KeyPlan(f, node, at, user[node], keys[i]);
        plan := if one.Planned? then Planned(plan.inserts + one.inserts) else one;
      }
    }
    assert keys[..|keys|] == keys;
  }

  /** Both files as parse_blocks reads them. */
  ghost predicate Read(f: Files) {
    Parsed(f.template, f.templateBlocks) && Parsed(f.user, f.userBlocks)
  }

  /** None of these lines opens an entry of the file. */
  predicate NoNames(lines: Lines) { forall i :: 0 <= i < |lines| ==> TopName(lines[i]).None? }

  /** A new node goes to the end of the file: a blank line, then the template from its
      header to what parse_blocks takes for its end. */
  ghost predicate NodePlaced(f: Files, ins: Insert, n: string) {
    && ins.pos == |f.user| && n in f.templateBlocks
    && var b := f.templateBlocks[n];
       && b.start < |f.template| && TopKey(f.template[b.start]) == Some(n)
       && ins.lines == [""] + f.template[b.start..BlockEnd(f.template, b.start)]
  }

  /** A new key goes to its node's insertion point: its own line and what continues it. */
  ghost predicate KeyPlaced(f: Files, ins: Insert, n: string, key: string) {
    && n in f.userBlocks && ins.pos == f.userBlocks[n].contentEnd && ins.pos <= |f.user|
    && |ins.lines| > 0 && SubKey(ins.lines[0]) == Some(key) && NoNames(ins.lines)
    && forall i :: 0 < i < |ins.lines| ==> SubKey(ins.lines[i]).None?
  }

  ghost predicate WellPlaced(f: Files, ins: Insert) {
    match ins.origin
    case NewNode(n) => NodePlaced(f, ins, n)
    case NewKey(n, key) => KeyPlaced(f, ins, n, key)
  }

  ghost predicate AllWellPlaced(f: Files, plan: Plan) {
    plan.Planned? ==> forall i :: 0 <= i < |plan.inserts| ==> WellPlaced(f, plan.inserts[i])
  }

  lemma BlockEndInside(lines: Lines, start: nat)
    requires start < |lines|
    ensures start < BlockEnd(lines, start) <= |lines|
  {
    hide TopKey;
  }

  lemma NewNodePlaced(f: Files, n: string)
    requires Read(f) && n in f.templateBlocks
    ensures var b := f.templateBlocks[n];
            WellPlaced(f, Insert(|f.user|, [""] + SliceOf(f.template, b.start, b.end), NewNode(n)))
  {
    hide TopKey, KeysUpTo, ContentEnd, NextHeader;
    var b := f.templateBlocks[n];
    assert BlockOf(f.template, n, b);
    BlockEndInside(f.template, b.start);
  }

  /** The lines of a new node hold a name, its own. */
  lemma NodeHasName(f: Files, ins: Insert, n: string)
    requires NodePlaced(f, ins, n)
    ensures !NoNames(ins.lines)
  {
    hide TopKey, TopName;
    BlockEndInside(f.template, f.templateBlocks[n].start);
    assert ins.lines[1] == f.template[f.templateBlocks[n].start];
    HeadersAreNamed(ins.lines[1]);
  }

  lemma NewKeyPlaced(f: Files, n: string, key: string)
    requires Read(f) && n in f.templateBlocks && n in f.userBlocks && key in f.templateBlocks[n].keys
    ensures var s := f.templateBlocks[n].keys[key];
            WellPlaced(f, Insert(f.userBlocks[n].contentEnd, SliceOf(f.template, s.from, s.to), NewKey(n, key)))
  {
    hide TopKey, SubKey, BlockOf, ContentEnd, NextHeader;
    var b := f.templateBlocks[n];
    assert BlockOf(f.template, n, b) && BlockOf(f.user, n, f.userBlocks[n]) && ContentEnd(f.userBlocks[n]);
    SpanHasNoName(f.template, n, b, key);
    KeyLine(f.template, n, b, key);
    ContentEndInside(f.user, n, f.userBlocks[n]);
  }

  lemma KeyLine(lines: Lines, n: string, b: Block, key: string)
    requires BlockOf(lines, n, b) && key in b.keys
    ensures var s := b.keys[key];
            && s.from < s.to <= |lines| && SubKey(lines[s.from]) == Some(key)
            && forall i :: s.from < i < s.to ==> SubKey(lines[i]).None?
  {
    hide TopKey, SubKey, NextHeader, SpanEnd, Strip;
    var s := b.keys[key];
    SpanIsInside(lines, s.from + 1);
  }

  lemma {:induction false} KeysPlaced(f: Files, n: string, value: Yaml, keys: seq<string>)
    requires Read(f) && n in f.userBlocks
    ensures AllWellPlaced(f, KeysPlan(f, n, f.userBlocks[n].contentEnd, value, keys))
    decreases |keys|
  {
    hide Read, WellPlaced, Has;
    if keys != [] {
      var key := keys[|keys| - 1];
      KeysPlaced(f, n, value, keys[..|keys| - 1]);
      if n in f.templateBlocks && key in f.templateBlocks[n].keys {
        NewKeyPlaced(f, n, key);
      }
    }
  }

  lemma {:induction false} FilePlaced(f: Files, wanted: seq<(string, Yaml)>, user: map<string, Yaml>)
    requires Read(f)
    ensures AllWellPlaced(f, FilePlan(f, wanted, user))
    decreases |wanted|
  {
    hide Read, WellPlaced, KeysPlan;
    if wanted != [] {
      var last := wanted[|wanted| - 1];
      FilePlaced(f, wanted[..|wanted| - 1], user);
      if last.0 in f.userBlocks && last.0 in user && last.1.Mapping? {
        KeysPlaced(f, last.0, user[last.0], last.1.keys);
      } else if last.0 in f.templateBlocks {
        NewNodePlaced(f, last.0);
      }
    }
  }

  predicate Adds(plan: Plan, o: Origin) {
    plan.Planned? && exists i :: 0 <= i < |plan.inserts| && plan.inserts[i].origin == o
  }

  lemma ThenAdds(first: Plan, second: Plan, o: Origin)
    requires Then(first, second).Planned?
    ensures Adds(Then(first, second), o) <==> Adds(first, o) || Adds(second, o)
  {
    var a, b := first.inserts, second.inserts;
    if Adds(first, o) {
      var i :| 0 <= i < |a| && a[i].origin == o;
      assert (a + b)[i].origin == o;
    }
    if Adds(second, o) {
      var i :| 0 <= i < |b| && b[i].origin == o;
      assert (a + b)[|a| + i].origin == o;
    }
  }

  lemma {:induction false} KeysAdded(f: Files, n: string, at: nat, value: Yaml, keys: seq<string>, o: Origin)
    requires KeysPlan(f, n, at, value, keys).Planned?
    ensures Adds(KeysPlan(f, n, at, value, keys), o) <==>
              && o.NewKey? && o.node == n && o.key in keys && !Has(value, o.key)
              && n in f.templateBlocks && o.key in f.templateBlocks[n].keys
    decreases |keys|
  {
    hide Has;
    if keys != [] {
      var before, key := keys[..|keys| - 1], keys[|keys| - 1];
      ThenAdds(KeysPlan(f, n, at, value, before), KeyPlan(f, n, at, value, key), o);
      KeysAdded(f, n, at, value, before, o);
      var one := KeyPlan(f, n, at, value, key);
      assert one.inserts != [] ==> one.inserts[0].origin == NewKey(n, key);
      assert o.NewKey? ==> (o.key in keys <==> o.key in before || o.key == key);
    }
  }

  /** This template entry asks for that addition. */
  predicate Asks(f: Files, entry: (string, Yaml), user: map<string, Yaml>, o: Origin) {
    && o.node == entry.0
    && match o
       case NewNode(n) => n !in user
       case NewKey(n, key) =>
         && n in user && entry.1.Mapping? && key in entry.1.keys && !Has(user[n], key)
         && n in f.templateBlocks && key in f.templateBlocks[n].keys
  }

  /** What is asked for is exactly what the template has, the user does not, and the
      template's text shows.  NothingAddedTwice says when the lines written for it
      hold nothing else. */
  lemma {:induction false} AddedExactly(f: Files, wanted: seq<(string, Yaml)>, user: map<string, Yaml>, o: Origin)
    requires FilePlan(f, wanted, user).Planned?
    ensures Adds(FilePlan(f, wanted, user), o) <==> exists i :: 0 <= i < |wanted| && Asks(f, wanted[i], user, o)
    decreases |wanted|
  {
    hide Has, KeysPlan;
    if wanted != [] {
      var before, last := wanted[..|wanted| - 1], wanted[|wanted| - 1];
      ThenAdds(FilePlan(f, before, user), NodePlan(f, last.0, last.1, user), o);
      AddedExactly(f, before, user, o);
      if last.0 in user && last.1.Mapping? && last.0 in f.userBlocks {
        KeysAdded(f, last.0, f.userBlocks[last.0].contentEnd, user[last.0], last.1.keys, o);
      } else if last.0 !in user && NodePlan(f, last.0, last.1, user).Planned? {
        assert NodePlan(f, last.0, last.1, user).inserts[0].origin == NewNode(last.0);
      }
      assert wanted[|wanted| - 1] == last && forall i :: 0 <= i < |before| ==> wanted[i] == before[i];
    }
  }

  /* ---- when the program gets that far ---- */

  predicate HasHeader(lines: Lines, n: string) {
    exists i :: 0 <= i < |lines| && TopKey(lines[i]) == Some(n)
  }

  lemma HeaderIsKnown(lines: Lines, nodes: map<string, Block>, n: string)
    requires Parsed(lines, nodes)
    ensures n in nodes <==> HasHeader(lines, n)
  {
    hide TopKey, KeysUpTo, ContentEnd, NextHeader;
    if n in nodes {
      assert BlockOf(lines, n, nodes[n]);
      assert TopKey(lines[nodes[n].start]) == Some(n);
    }
    if HasHeader(lines, n) {
      var i :| 0 <= i < |lines| && TopKey(lines[i]) == Some(n);
      assert IsHeader(lines[i]);
    }
  }

  /** Looking up a key raises no exception. */
  predicate KeyFine(known: bool, value: Yaml, key: string) { !value.Scalar? && (Has(value, key) || known) }

  /** A template entry that raises no exception: a missing node has a header line in the
      template; a mapping the user has too has one in the user's file, and each of its
      keys can be looked up in the user's value and is there or its node has a header
      line in the template. */
  predicate EntryFine(template: Lines, file: Lines, entry: (string, Yaml), user: map<string, Yaml>) {
    if entry.0 !in user then HasHeader(template, entry.0)
    else entry.1.Mapping? ==>
      && HasHeader(file, entry.0)
      && forall k :: k in entry.1.keys ==> KeyFine(HasHeader(template, entry.0), user[entry.0], k)
  }

  lemma {:induction false} KeysSucceed(f: Files, n: string, at: nat, value: Yaml, keys: seq<string>)
    ensures KeysPlan(f, n, at, value, keys).Planned? <==>
              forall k :: k in keys ==> KeyFine(n in f.templateBlocks, value, k)
    decreases |keys|
  {
    hide Has;
    if keys != [] {
      var before, last := keys[..|keys| - 1], keys[|keys| - 1];
      KeysSucceed(f, n, at, value, before);
      assert KeyPlan(f, n, at, value, last).Planned? <==> KeyFine(n in f.templateBlocks, value, last);
      assert keys[|keys| - 1] == last && forall i :: 0 <= i < |before| ==> keys[i] == before[i];
      hide KeyFine;
      assert last in keys && forall k :: k in before ==> k in keys;
    }
  }

  /** The plan is made, and so no exception stops the program, exactly when every
      entry of the template is fine. */
  lemma {:induction false} PlanSucceeds(f: Files, wanted: seq<(string, Yaml)>, user: map<string, Yaml>)
    requires Read(f)
    ensures FilePlan(f, wanted, user).Planned? <==>
              forall i :: 0 <= i < |wanted| ==> EntryFine(f.template, f.user, wanted[i], user)
    decreases |wanted|
  {
    hide Has, KeysPlan, Parsed, HasHeader;
    if wanted != [] {
      var before, last := wanted[..|wanted| - 1], wanted[|wanted| - 1];
      PlanSucceeds(f, before, user);
      HeaderIsKnown(f.template, f.templateBlocks, last.0);
      HeaderIsKnown(f.user, f.userBlocks, last.0);
      if last.0 in user && last.1.Mapping? && last.0 in f.userBlocks {
        KeysSucceed(f, last.0, f.userBlocks[last.0].contentEnd, user[last.0], last.1.keys);
      }
      assert forall i :: 0 <= i < |before| ==> wanted[i] == before[i];
      assert wanted[|before|] == last;
    }
  }

  /* ---- inserting ---- */

  /** The blocks inserted at one position: the last in the list comes first. */
  function BlocksAt(inserts: seq<Insert>, p: nat): Lines {
    if inserts == [] then []
    else
      var last := inserts[|inserts| - 1];
      (if last.pos == p then last.lines else []) + BlocksAt(inserts[..|inserts| - 1], p)
  }

  /** The user's lines from a to b, each after the blocks inserted before it. */
  function Woven(lines: Lines, inserts: seq<Insert>, a: nat, b: nat): Lines
    requires a <= b <= |lines|
    decreases b - a
  {
    if a == b then [] else BlocksAt(inserts, a) + [lines[a]] + Woven(lines, inserts, a + 1, b)
  }

  /** Every insert at its position in the original file, all at once. */
  function Merged(lines: Lines, inserts: seq<Insert>): Lines {
    Woven(lines, inserts, 0, |lines|) + BlocksAt(inserts, |lines|)
  }

  predicate InFile(lines: Lines, inserts: seq<Insert>) {
    forall i :: 0 <= i < |inserts| ==> inserts[i].pos <= |lines|
  }

  predicate Descending(inserts: seq<Insert>) {
    forall i, j :: 0 <= i < j < |inserts| ==> inserts[i].pos >= inserts[j].pos
  }

  lemma {:induction false} WovenSplit(lines: Lines, inserts: seq<Insert>, a: nat, m: nat, b: nat)
    requires a <= m <= b <= |lines|
    ensures Woven(lines, inserts, a, b) == Woven(lines, inserts, a, m) + Woven(lines, inserts, m, b)
    decreases m - a
  {
    hide BlocksAt;
    if a < m {
      WovenSplit(lines, inserts, a + 1, m, b);
    }
  }

  lemma {:induction false} NothingThere(inserts: seq<Insert>, p: nat)
    requires forall i :: 0 <= i < |inserts| ==> inserts[i].pos != p
    ensures BlocksAt(inserts, p) == []
    decreases |inserts|
  {
    if inserts != [] {
      NothingThere(inserts[..|inserts| - 1], p);
    }
  }

  /** Where nothing is inserted the lines are just the user's. */
  lemma {:induction false} WovenPlain(lines: Lines, inserts: seq<Insert>, a: nat, b: nat)
    requires a <= b <= |lines|
    requires forall i :: 0 <= i < |inserts| ==> inserts[i].pos >= b
    ensures Woven(lines, inserts, a, b) == lines[a..b]
    decreases b - a
  {
    hide BlocksAt;
    if a < b {
      NothingThere(inserts, a);
      WovenPlain(lines, inserts, a + 1, b);
    }
  }

  /** Woven depends only on what is inserted at each position in its range. */
  lemma {:induction false} WovenSame(lines: Lines, x: seq<Insert>, y: seq<Insert>, a: nat, b: nat)
    requires a <= b <= |lines|
    requires forall p: nat :: a <= p < b ==> BlocksAt(x, p) == BlocksAt(y, p)
    ensures Woven(lines, x, a, b) == Woven(lines, y, a, b)
    decreases b - a
  {
    hide BlocksAt;
    if a < b {
      WovenSame(lines, x, y, a + 1, b);
    }
  }

  /** The file in three parts around a position. */
  lemma MergedAround(lines: Lines, inserts: seq<Insert>, p: nat)
    requires p <= |lines|
    ensures Merged(lines, inserts)
            == Woven(lines, inserts, 0, p) + BlocksAt(inserts, p) + Rest(lines, inserts, p)
  {
    hide BlocksAt, Woven;
    var n := |lines|;
    WovenSplit(lines, inserts, 0, p, n);
    var head := Woven(lines, inserts, 0, p);
    if p < n {
      WovenHead(lines, inserts, p, n);
      Regroup(head, BlocksAt(inserts, p), [lines[p]], Woven(lines, inserts, p + 1, n), BlocksAt(inserts, n));
    } else {
      WovenNone(lines, inserts, p);
      assert head + [] + BlocksAt(inserts, n) == head + BlocksAt(inserts, n) + [];
    }
  }

  lemma Regroup(a: Lines, b: Lines, c: Lines, d: Lines, e: Lines)
    ensures (a + (b + c + d)) + e == a + b + (c + d + e)
  {
  }

  lemma WovenNone(lines: Lines, inserts: seq<Insert>, a: nat)
    requires a <= |lines|
    ensures Woven(lines, inserts, a, a) == []
  {
  }

  lemma WovenHead(lines: Lines, inserts: seq<Insert>, a: nat, b: nat)
    requires a < b <= |lines|
    ensures Woven(lines, inserts, a, b) == BlocksAt(inserts, a) + [lines[a]] + Woven(lines, inserts, a + 1, b)
  {
  }

  /** From the line at p on, with what is inserted after it. */
  function Rest(lines: Lines, inserts: seq<Insert>, p: nat): Lines
    requires p <= |lines|
  {
    if p == |lines| then []
    else [lines[p]] + Woven(lines, inserts, p + 1, |lines|) + BlocksAt(inserts, |lines|)
  }

  /** One splice at a position no higher than all earlier ones. */
  lemma OneSplice(lines: Lines, done: seq<Insert>, x: Insert)
    requires InFile(lines, done) && x.pos <= |lines|
    requires forall i :: 0 <= i < |done| ==> done[i].pos >= x.pos
    ensures var before := Merged(lines, done);
            x.pos <= |before| && Merged(lines, done + [x]) == before[..x.pos] + x.lines + before[x.pos..]
  {
    var p, all := x.pos, done + [x];
    OneMore(done, x);
    hide BlocksAt, Woven, Merged;
    MergedAround(lines, done, p);
    MergedAround(lines, all, p);
    WovenPlain(lines, done, 0, p);
    WovenPlain(lines, all, 0, p);
    assert lines[0..p] == lines[..p];
    assert Rest(lines, all, p) == Rest(lines, done, p) by {
      if p < |lines| {
        WovenSame(lines, all, done, p + 1, |lines|);
      }
    }
    hide Rest;
    assert BlocksAt(all, p) == x.lines + BlocksAt(done, p);
    Spliced(lines[..p], BlocksAt(done, p), Rest(lines, done, p), x.lines);
  }

  lemma Spliced(a: Lines, b: Lines, c: Lines, x: Lines)
    ensures var before := a + b + c;
            a + (x + b) + c == before[..|a|] + x + before[|a|..]
  {
    var before := a + b + c;
    assert before[..|a|] == a && before[|a|..] == b + c;
  }

  lemma OneMore(done: seq<Insert>, x: Insert)
    ensures forall q: nat :: BlocksAt(done + [x], q) == (if x.pos == q then x.lines else []) + BlocksAt(done, q)
  {
    assert (done + [x])[..|done|] == done;
  }

  lemma {:induction false} BlocksAppend(x: seq<Insert>, y: seq<Insert>, p: nat)
    ensures BlocksAt(x + y, p) == BlocksAt(y, p) + BlocksAt(x, p)
    decreases |y|
  {
    if y == [] {
      assert x + y == x;
    } else {
      assert (x + y)[..|x + y| - 1] == x + y[..|y| - 1];
      BlocksAppend(x, y[..|y| - 1], p);
    }
  }

  /** Placing behind all that are not lower leaves every position's blocks in order. */
  lemma PlaceStable(sorted: seq<Insert>, k: nat, x: Insert, p: nat)
    requires k <= |sorted| && forall j :: k <= j < |sorted| ==> sorted[j].pos < x.pos
    ensures BlocksAt(sorted[..k] + [x] + sorted[k..], p)
            == (if x.pos == p then x.lines else []) + BlocksAt(sorted, p)
  {
    var low, high := sorted[..k], sorted[k..];
    OneMore(low, x);
    hide BlocksAt;
    BlocksAppend(low + [x], high, p);
    BlocksAppend(low, high, p);
    assert low + high == sorted;
    if x.pos == p {
      NothingThere(high, p);
    }
  }

  method PlaceOne(sorted: seq<Insert>, x: Insert) returns (next: seq<Insert>)
    requires Descending(sorted)
    ensures Descending(next)
    ensures forall p: nat :: BlocksAt(next, p) == (if x.pos == p then x.lines else []) + BlocksAt(sorted, p)
    ensures forall y :: y in next <==> y == x || y in sorted
  {
    hide BlocksAt;
    var k := |sorted|;
    while k > 0 && sorted[k - 1].pos < x.pos
      invariant 0 <= k <= |sorted| && forall j :: k <= j < |sorted| ==> sorted[j].pos < x.pos
    {
      k := k - 1;
    }
    next := sorted[..k] + [x] + sorted[k..];
    StillDescending(sorted, k, x);
    hide Descending;
    forall p: nat
      ensures BlocksAt(next, p) == (if x.pos == p then x.lines else []) + BlocksAt(sorted, p)
    {
      PlaceStable(sorted, k, x, p);
    }
  }

  lemma DescendingAppend(a: seq<Insert>, b: seq<Insert>)
    requires Descending(a) && Descending(b)
    requires forall i, j :: 0 <= i < |a| && 0 <= j < |b| ==> a[i].pos >= b[j].pos
    ensures Descending(a + b)
  {
    forall i, j | 0 <= i < j < |a + b|
      ensures (a + b)[i].pos >= (a + b)[j].pos
    {
      if i < |a| <= j {
        assert a[i].pos >= b[j - |a|].pos;
      }
    }
  }

  lemma StillDescending(sorted: seq<Insert>, k: nat, x: Insert)
    requires Descending(sorted) && k <= |sorted| && (k > 0 ==> sorted[k - 1].pos >= x.pos)
    requires forall j :: k <= j < |sorted| ==> sorted[j].pos < x.pos
    ensures Descending(sorted[..k] + [x] + sorted[k..])
    ensures forall y :: y in sorted[..k] + [x] + sorted[k..] <==> y == x || y in sorted
  {
    var low, high := sorted[..k], sorted[k..];
    DescendingAppend(low, [x]);
    DescendingAppend(low + [x], high);
    hide Descending;
    assert sorted == low + high;
  }

  /** A stable sort by falling position. */
  method SortByPosition(inserts: seq<Insert>) returns (sorted: seq<Insert>)
    ensures Descending(sorted)
    ensures forall p: nat :: BlocksAt(sorted, p) == BlocksAt(inserts, p)
    ensures forall x :: x in sorted <==> x in inserts
  {
    sorted := [];
    assert inserts[..0] == [];
    assert Descending(sorted);
    hide BlocksAt, Descending;
    for i := 0 to |inserts|
      invariant Descending(sorted)
      invariant forall p: nat :: BlocksAt(sorted, p) == BlocksAt(inserts[..i], p)
      invariant forall x :: x in sorted <==> x in inserts[..i]
    {
      assert inserts[..i + 1] == inserts[..i] + [inserts[i]];
      OneMore(inserts[..i], inserts[i]);
      sorted := PlaceOne(sorted, inserts[i]);
    }
    assert inserts[..|inserts|] == inserts;
  }

  lemma NothingInserted(lines: Lines)
    ensures Merged(lines, []) == lines
  {
    WovenPlain(lines, [], 0, |lines|);
  }

  lemma MergedSame(lines: Lines, x: seq<Insert>, y: seq<Insert>)
    requires forall p: nat :: BlocksAt(x, p) == BlocksAt(y, p)
    ensures Merged(lines, x) == Merged(lines, y)
  {
    WovenSame(lines, x, y, 0, |lines|);
  }

  /** Inserting back to front is inserting everywhere at once. */
  method InsertAll(lines: Lines, inserts: seq<Insert>) returns (result: Lines)
    requires InFile(lines, inserts)
    ensures result == Merged(lines, inserts)
  {
    var sorted := SortByPosition(inserts);
    assert InFile(lines, sorted) by {
      forall i | 0 <= i < |sorted|
        ensures sorted[i].pos <= |lines|
      {
        assert sorted[i] in inserts;
      }
    }
    result := lines;
    NothingInserted(lines);
    MergedSame(lines, sorted, inserts);
    assert sorted[..0] == [];
    hide BlocksAt, Woven, Merged;
    for k := 0 to |sorted|
      invariant result == Merged(lines, sorted[..k])
    {
      var x := sorted[k];
      OneSplice(lines, sorted[..k], x);
      assert sorted[..k + 1] == sorted[..k] + [x];
      result := result[..x.pos] + x.lines + result[x.pos..];
    }
    assert sorted[..|sorted|] == sorted;
  }

  /* ---- what the result keeps ---- */

  /** Where the user's line i stands in the result. */
  function LineAt(lines: Lines, inserts: seq<Insert>, i: nat): nat
    requires i < |lines|
  {
    |Woven(lines, inserts, 0, i)| + |BlocksAt(inserts, i)|
  }

  /** Every line of the user is in the result, unchanged and in order. */
  lemma UserLinesKept(lines: Lines, inserts: seq<Insert>, i: nat)
    requires i < |lines|
    ensures var at := LineAt(lines, inserts, i);
            && at < |Merged(lines, inserts)| && Merged(lines, inserts)[at] == lines[i]
            && (i + 1 < |lines| ==> at < LineAt(lines, inserts, i + 1))
  {
    hide BlocksAt, Woven, Merged;
    MergedAround(lines, inserts, i);
    assert Rest(lines, inserts, i)[0] == lines[i];
    WovenSplit(lines, inserts, 0, i, i + 1);
    WovenHead(lines, inserts, i, i + 1);
  }

  function LinesBetween(inserts: seq<Insert>, a: nat, b: nat): nat {
    if inserts == [] then 0
    else
      var last := inserts[|inserts| - 1];
      (if a <= last.pos < b then |last.lines| else 0) + LinesBetween(inserts[..|inserts| - 1], a, b)
  }

  lemma {:induction false} BetweenSplit(inserts: seq<Insert>, a: nat, m: nat, b: nat)
    requires a <= m <= b
    ensures LinesBetween(inserts, a, b) == LinesBetween(inserts, a, m) + LinesBetween(inserts, m, b)
    decreases |inserts|
  {
    if inserts != [] {
      BetweenSplit(inserts[..|inserts| - 1], a, m, b);
    }
  }

  lemma {:induction false} BlocksLength(inserts: seq<Insert>, p: nat)
    ensures |BlocksAt(inserts, p)| == LinesBetween(inserts, p, p + 1)
    decreases |inserts|
  {
    if inserts != [] {
      BlocksLength(inserts[..|inserts| - 1], p);
    }
  }

  lemma {:induction false} WovenLength(lines: Lines, inserts: seq<Insert>, a: nat, b: nat)
    requires a <= b <= |lines|
    ensures |Woven(lines, inserts, a, b)| == b - a + LinesBetween(inserts, a, b)
    decreases b - a
  {
    hide BlocksAt;
    if a == b {
      BetweenEmpty(inserts, a);
    } else {
      WovenLength(lines, inserts, a + 1, b);
      BlocksLength(inserts, a);
      BetweenSplit(inserts, a, a + 1, b);
    }
  }

  lemma {:induction false} BetweenEmpty(inserts: seq<Insert>, a: nat)
    ensures LinesBetween(inserts, a, a) == 0
    decreases |inserts|
  {
    if inserts != [] {
      BetweenEmpty(inserts[..|inserts| - 1], a);
    }
  }

  /** The result is as long as the user's file and all inserted lines together. */
  lemma LengthsAdd(lines: Lines, inserts: seq<Insert>)
    ensures |Merged(lines, inserts)| == |lines| + LinesBetween(inserts, 0, |lines| + 1)
  {
    WovenLength(lines, inserts, 0, |lines|);
    BlocksLength(inserts, |lines|);
    BetweenSplit(inserts, 0, |lines|, |lines| + 1);
  }

  /** Line j belongs to the header at h: nothing between opens another entry. */
  predicate UnderHeader(lines: Lines, h: nat, j: nat) {
    h < j < |lines| && IsHeader(lines[h]) && forall i :: h < i <= j ==> TopName(lines[i]).None?
  }

  /** A new node among these inserts goes to position p. */
  predicate NodeGoesTo(inserts: seq<Insert>, p: nat) {
    exists i :: 0 <= i < |inserts| && inserts[i].origin.NewNode? && inserts[i].pos == p
  }

  ghost predicate AllPlaced(f: Files, inserts: seq<Insert>) {
    forall i :: 0 <= i < |inserts| ==> WellPlaced(f, inserts[i])
  }

  lemma {:induction false} NamesAt(f: Files, inserts: seq<Insert>, p: nat)
    requires AllPlaced(f, inserts)
    ensures NoNames(BlocksAt(inserts, p)) <==> !NodeGoesTo(inserts, p)
    decreases |inserts|
  {
    hide TopKey, TopName, SubKey;
    if inserts != [] {
      var before, last := inserts[..|inserts| - 1], inserts[|inserts| - 1];
      NamesAt(f, before, p);
      var head := if last.pos == p then last.lines else [];
      NamesAppend(head, BlocksAt(before, p));
      assert WellPlaced(f, last);
      if last.origin.NewNode? { NodeHasName(f, last, last.origin.node); }
      assert NodeGoesTo(inserts, p) <==> NodeGoesTo(before, p) || (last.origin.NewNode? && last.pos == p) by {
        if NodeGoesTo(before, p) {
          var i :| 0 <= i < |before| && before[i].origin.NewNode? && before[i].pos == p;
          assert inserts[i] == before[i];
        }
      }
    }
  }

  lemma NamesAppend(a: Lines, b: Lines)
    ensures NoNames(a + b) <==> NoNames(a) && NoNames(b)
  {
    hide TopName;
    if NoNames(a + b) {
      assert forall i :: 0 <= i < |a| ==> a[i] == (a + b)[i];
      assert forall i :: 0 <= i < |b| ==> b[i] == (a + b)[|a| + i];
    }
  }

  /** Before the end of the file no name is inserted: there are the user's only. */
  lemma {:induction false} WovenNames(f: Files, inserts: seq<Insert>, a: nat, b: nat)
    requires AllPlaced(f, inserts) && a <= b <= |f.user|
    ensures NoNames(Woven(f.user, inserts, a, b)) <==> NoNames(f.user[a..b])
    decreases b - a
  {
    hide TopKey, TopName, SubKey, BlocksAt, NoNames;
    if a == b {
      assert f.user[a..b] == [];
    } else {
      WovenNames(f, inserts, a + 1, b);
      NamesAt(f, inserts, a);
      assert !NodeGoesTo(inserts, a) by {
        assert forall i :: 0 <= i < |inserts| ==> WellPlaced(f, inserts[i]);
      }
      NamesAppend(BlocksAt(inserts, a), [f.user[a]]);
      NamesAppend(BlocksAt(inserts, a) + [f.user[a]], Woven(f.user, inserts, a + 1, b));
      NamesAppend([f.user[a]], f.user[a + 1..b]);
      assert f.user[a..b] == [f.user[a]] + f.user[a + 1..b];
    }
  }

  /** Where the lines of one insert begin: behind all later ones at its position. */
  function StartOf(lines: Lines, before: seq<Insert>, x: Insert, after: seq<Insert>): nat
    requires x.pos <= |lines|
  {
    |Woven(lines, before + [x] + after, 0, x.pos)| + |BlocksAt(after, x.pos)|
  }

  lemma BlockSplit(before: seq<Insert>, x: Insert, after: seq<Insert>)
    ensures BlocksAt(before + [x] + after, x.pos)
            == BlocksAt(after, x.pos) + (x.lines + BlocksAt(before, x.pos))
  {
    BlocksAppend(before + [x], after, x.pos);
    OneMore(before, x);
  }

  /** The four stretches of the result around a key's insert: up to the node's header,
      from there to the insertion point, the later blocks, the key's own lines. */
  lemma Stretches(f: Files, before: seq<Insert>, x: Insert, after: seq<Insert>, start: nat)
    requires start < x.pos <= |f.user|
    ensures var all := before + [x] + after;
            var result := Merged(f.user, all);
            var h, from := LineAt(f.user, all, start), StartOf(f.user, before, x, after);
            && h < from && from + |x.lines| <= |result|
            && result[h] == f.user[start]
            && result[h + 1..from] == Woven(f.user, all, start + 1, x.pos) + BlocksAt(after, x.pos)
            && result[from..from + |x.lines|] == x.lines
  {
    hide BlocksAt, Woven, Merged;
    var all, p, lines := before + [x] + after, x.pos, f.user;
    MergedAround(lines, all, p);
    BlockSplit(before, x, after);
    WovenSplit(lines, all, 0, start, p);
    WovenHead(lines, all, start, p);
    var a, b, c := Woven(lines, all, 0, start), BlocksAt(all, start), Woven(lines, all, start + 1, p);
    var d, e := BlocksAt(after, p), BlocksAt(before, p);
    Layout(a, b, [lines[start]], c, d, x.lines, e, Rest(lines, all, p));
  }

  lemma Layout(a: Lines, b: Lines, l: Lines, c: Lines, d: Lines, x: Lines, e: Lines, r: Lines)
    requires |l| == 1
    ensures var all := (a + (b + l + c)) + (d + (x + e)) + r;
            var h, from := |a| + |b|, |a + (b + l + c)| + |d|;
            && h < from && from + |x| <= |all| && all[h] == l[0]
            && all[h + 1..from] == c + d && all[from..from + |x|] == x
  {
  }

  /** An added key belongs to its own node, below the header the user wrote, exactly
      when no new node added later goes to the same position and the user's lines from
      that header to the insertion point open no other entry. */
  lemma KeyLandsInItsNode(f: Files, before: seq<Insert>, x: Insert, after: seq<Insert>, j: nat)
    requires Read(f) && AllPlaced(f, before + [x] + after) && x.origin.NewKey? && j < |x.lines|
    ensures x.origin.node in f.userBlocks && f.userBlocks[x.origin.node].start < x.pos <= |f.user|
    ensures var all, start := before + [x] + after, f.userBlocks[x.origin.node].start;
            var result, from := Merged(f.user, all), StartOf(f.user, before, x, after);
            && from + j < |result| && result[from + j] == x.lines[j]
            && (UnderHeader(result, LineAt(f.user, all, start), from + j)
                <==> !NodeGoesTo(after, x.pos) && NoNames(f.user[start + 1..x.pos]))
  {
    hide Read, AllPlaced, WellPlaced, TopKey, SubKey, Woven, BlocksAt, Merged, LineAt, StartOf, NoNames,
         UnderHeader, IsHeader, NodeGoesTo;
    var n, all := x.origin.node, before + [x] + after;
    Placed(f, before, x, after);
    var b := f.userBlocks[n];
    var result, from := Merged(f.user, all), StartOf(f.user, before, x, after);
    var h := LineAt(f.user, all, b.start);
    Stretches(f, before, x, after, b.start);
    WovenNames(f, all, b.start + 1, x.pos);
    NamesAt(f, after, x.pos);
    NamesAppend(Woven(f.user, all, b.start + 1, x.pos), BlocksAt(after, x.pos));
    Under(result, h, from, x.lines, j);
  }

  /** A key goes right behind its node's header exactly when the program sees no key of
      that node in the user's file. */
  lemma KeyGoesFirst(f: Files, n: string)
    requires Read(f) && n in f.userBlocks
    ensures var b := f.userBlocks[n];
            && b.start < NextHeader(f.user, b.start + 1) <= |f.user|
            && (b.contentEnd == b.start + 1
                <==> forall i :: b.start < i < NextHeader(f.user, b.start + 1) ==> SubKey(f.user[i]).None?)
  {
    hide TopKey, SubKey, NextHeader, SpanEnd;
    var b := f.userBlocks[n];
    assert BlockOf(f.user, n, b) && ContentEnd(b);
    forall k | k in b.keys
      ensures b.start < b.keys[k].from < b.keys[k].to && SubKey(f.user[b.keys[k].from]).Some?
    {
      KeyInside(f.user, n, b, k);
    }
  }

  /** Indented by four spaces or more, and not blank. */
  predicate Deep(line: string) { |line| >= 4 && line[..4] == "    " && Strip(line) != "" }

  lemma DeepContinues(line: string)
    requires Deep(line)
    ensures SubKey(line).None? && Continues(line)
  {
    hide Strip, BeforeColon, RStrip;
    assert line[..2] == line[..4][..2] && line[..3] == line[..4][..3];
    assert line[0] == line[..4][0] && line[2] == line[..4][2];
  }

  lemma {:induction false} SpanToNext(lines: Lines, b: nat)
    requires b <= |lines| && forall i :: b <= i < NextHeader(lines, b) ==> Continues(lines[i])
    ensures SpanEnd(lines, b) == NextHeader(lines, b)
    decreases |lines| - b
  {
    hide TopKey, SubKey, Strip;
    if b < |lines| && !IsHeader(lines[b]) {
      SpanToNext(lines, b + 1);
    }
  }

  /** A node the user indented by four spaces: a key for it goes right behind its header,
      in front of lines that all read as the key's continuation. */
  lemma DeepNode(f: Files, n: string)
    requires Read(f) && n in f.userBlocks
    requires forall i :: f.userBlocks[n].start < i < NextHeader(f.user, f.userBlocks[n].start + 1) ==> Deep(f.user[i])
    ensures var b := f.userBlocks[n];
            b.contentEnd == b.start + 1 && SpanEnd(f.user, b.contentEnd) == NextHeader(f.user, b.start + 1)
  {
    hide Read, TopKey, SubKey, NextHeader, SpanEnd, Deep, Continues;
    var b := f.userBlocks[n];
    KeyGoesFirst(f, n);
    forall i | b.start < i < NextHeader(f.user, b.start + 1)
      ensures SubKey(f.user[i]).None? && Continues(f.user[i])
    {
      DeepContinues(f.user[i]);
    }
    SpanToNext(f.user, b.start + 1);
  }

  lemma UserBlock(f: Files, n: string)
    requires Read(f) && n in f.userBlocks
    ensures var b := f.userBlocks[n];
            b.start < b.contentEnd <= |f.user| && IsHeader(f.user[b.start])
  {
    hide TopKey, SubKey, ContentEnd, KeysUpTo, NextHeader;
    var b := f.userBlocks[n];
    assert BlockOf(f.user, n, b) && ContentEnd(b);
    ContentEndInside(f.user, n, b);
  }

  lemma Placed(f: Files, before: seq<Insert>, x: Insert, after: seq<Insert>)
    requires Read(f) && AllPlaced(f, before + [x] + after) && x.origin.NewKey?
    ensures AllPlaced(f, after) && NoNames(x.lines) && x.origin.node in f.userBlocks
    ensures var b := f.userBlocks[x.origin.node];
            b.start < x.pos <= |f.user| && IsHeader(f.user[b.start])
  {
    hide TopKey, SubKey, Read, IsHeader, NoNames;
    var all := before + [x] + after;
    assert WellPlaced(f, all[|before|]);
    forall i | 0 <= i < |after|
      ensures WellPlaced(f, after[i])
    {
      assert WellPlaced(f, all[|before| + 1 + i]);
    }
    UserBlock(f, x.origin.node);
  }

  lemma Under(result: Lines, h: nat, from: nat, own: Lines, j: nat)
    requires h < from && from + |own| <= |result| && j < |own|
    requires IsHeader(result[h]) && result[from..from + |own|] == own && NoNames(own)
    ensures result[from + j] == own[j]
    ensures UnderHeader(result, h, from + j) <==> NoNames(result[h + 1..from])
  {
    hide TopKey, TopName;
    var mid := result[h + 1..from];
    assert forall i :: 0 <= i < |own| ==> own[i] == result[from + i];
    assert forall i :: 0 <= i < |mid| ==> mid[i] == result[h + 1 + i];
    if NoNames(mid) {
      forall i | h < i <= from + j
        ensures TopName(result[i]).None?
      {
        if i < from {
          assert mid[i - h - 1] == result[i];
        } else {
          assert own[i - from] == result[i];
        }
      }
    }
  }

  /* ---- headers, names and keys of the result ---- */

  /** What a kind of line contributes, summed over lines. */
  function Tally(lines: Lines, of: string -> multiset<string>): multiset<string> {
    if lines == [] then multiset{} else of(lines[0]) + Tally(lines[1..], of)
  }

  function HeaderIn(line: string): multiset<string> {
    if IsHeader(line) then multiset{TopKey(line).value} else multiset{}
  }

  function NameIn(line: string): multiset<string> {
    if TopName(line).Some? then multiset{TopName(line).value} else multiset{}
  }

  function KeyIn(line: string): multiset<string> {
    if SubKey(line).Some? then multiset{SubKey(line).value} else multiset{}
  }

  lemma {:induction false} TallyAppend(a: Lines, b: Lines, of: string -> multiset<string>)
    ensures Tally(a + b, of) == Tally(a, of) + Tally(b, of)
    decreases |a|
  {
    if a == [] {
      assert a + b == b;
    } else {
      assert (a + b)[1..] == a[1..] + b;
      TallyAppend(a[1..], b, of);
    }
  }

  lemma TallyOne(line: string, of: string -> multiset<string>)
    ensures Tally([line], of) == of(line)
  {
    assert [line][1..] == [];
  }

  lemma {:induction false} TallyNone(lines: Lines, of: string -> multiset<string>)
    requires forall i :: 0 <= i < |lines| ==> of(lines[i]) == multiset{}
    ensures Tally(lines, of) == multiset{}
    decreases |lines|
  {
    if lines != [] {
      TallyNone(lines[1..], of);
    }
  }

  /** What the inserts at positions from a up to b contribute. */
  function TallyBetween(inserts: seq<Insert>, a: nat, b: nat, of: string -> multiset<string>): multiset<string> {
    if inserts == [] then multiset{}
    else
      var last := inserts[|inserts| - 1];
      (if a <= last.pos < b then Tally(last.lines, of) else multiset{})
      + TallyBetween(inserts[..|inserts| - 1], a, b, of)
  }

  lemma {:induction false} TallySplit(inserts: seq<Insert>, a: nat, m: nat, b: nat, of: string -> multiset<string>)
    requires a <= m <= b
    ensures TallyBetween(inserts, a, b, of) == TallyBetween(inserts, a, m, of) + TallyBetween(inserts, m, b, of)
    decreases |inserts|
  {
    hide Tally;
    if inserts != [] {
      TallySplit(inserts[..|inserts| - 1], a, m, b, of);
    }
  }

  lemma {:induction false} TallyEmpty(inserts: seq<Insert>, a: nat, of: string -> multiset<string>)
    ensures TallyBetween(inserts, a, a, of) == multiset{}
    decreases |inserts|
  {
    hide Tally;
    if inserts != [] {
      TallyEmpty(inserts[..|inserts| - 1], a, of);
    }
  }

  lemma {:induction false} TallyBlocks(inserts: seq<Insert>, p: nat, of: string -> multiset<string>)
    ensures Tally(BlocksAt(inserts, p), of) == TallyBetween(inserts, p, p + 1, of)
    decreases |inserts|
  {
    if inserts != [] {
      var before, last := inserts[..|inserts| - 1], inserts[|inserts| - 1];
      TallyBlocks(before, p, of);
      TallyAppend(if last.pos == p then last.lines else [], BlocksAt(before, p), of);
    }
  }

  lemma {:induction false} TallyWoven(lines: Lines, inserts: seq<Insert>, a: nat, b: nat,
                                      of: string -> multiset<string>)
    requires a <= b <= |lines|
    ensures Tally(Woven(lines, inserts, a, b), of) == Tally(lines[a..b], of) + TallyBetween(inserts, a, b, of)
    decreases b - a
  {
    hide BlocksAt, TallyBetween, Tally, Woven;
    if a == b {
      TallyEmpty(inserts, a, of);
      WovenNone(lines, inserts, a);
      TallyNone([], of);
      assert lines[a..b] == [];
    } else {
      TallyWoven(lines, inserts, a + 1, b, of);
      TallySplit(inserts, a, a + 1, b, of);
      WovenHead(lines, inserts, a, b);
      TallyLine(lines, inserts, a, b, of);
    }
  }

  /** One line of the user's with the blocks before it. */
  lemma TallyLine(lines: Lines, inserts: seq<Insert>, a: nat, b: nat, of: string -> multiset<string>)
    requires a < b <= |lines|
    ensures var rest := Woven(lines, inserts, a + 1, b);
            Tally(BlocksAt(inserts, a) + [lines[a]] + rest, of)
            == TallyBetween(inserts, a, a + 1, of) + of(lines[a]) + Tally(rest, of)
    ensures Tally(lines[a..b], of) == of(lines[a]) + Tally(lines[a + 1..b], of)
  {
    hide BlocksAt, TallyBetween, Tally, Woven;
    var blocks, rest := BlocksAt(inserts, a), Woven(lines, inserts, a + 1, b);
    TallyBlocks(inserts, a, of);
    TallyOne(lines[a], of);
    TallyAppend(blocks + [lines[a]], rest, of);
    TallyAppend(blocks, [lines[a]], of);
    TallyAppend([lines[a]], lines[a + 1..b], of);
    assert lines[a..b] == [lines[a]] + lines[a + 1..b];
  }

  /** What all inserts contribute. */
  function TallyAll(inserts: seq<Insert>, of: string -> multiset<string>): multiset<string> {
    if inserts == [] then multiset{}
    else TallyAll(inserts[..|inserts| - 1], of) + Tally(inserts[|inserts| - 1].lines, of)
  }

  lemma {:induction false} TallyEverywhere(inserts: seq<Insert>, n: nat, of: string -> multiset<string>)
    requires forall i :: 0 <= i < |inserts| ==> inserts[i].pos <= n
    ensures TallyBetween(inserts, 0, n + 1, of) == TallyAll(inserts, of)
    decreases |inserts|
  {
    hide Tally;
    if inserts != [] {
      TallyEverywhere(inserts[..|inserts| - 1], n, of);
    }
  }

  /** The result contributes what the user's file and all inserts contribute. */
  lemma TallyMerged(lines: Lines, inserts: seq<Insert>, of: string -> multiset<string>)
    requires InFile(lines, inserts)
    ensures Tally(Merged(lines, inserts), of) == Tally(lines, of) + TallyAll(inserts, of)
  {
    var n := |lines|;
    TallyAppend(Woven(lines, inserts, 0, n), BlocksAt(inserts, n), of);
    TallyWoven(lines, inserts, 0, n, of);
    TallyBlocks(inserts, n, of);
    TallySplit(inserts, 0, n, n + 1, of);
    TallyEverywhere(inserts, n, of);
    assert lines[0..n] == lines;
  }

  /** The header at `start` is last in its file or not directly followed by another. */
  predicate Clean(lines: Lines, start: nat) {
    start + 1 >= |lines| || !IsHeader(lines[start + 1])
  }

  /** A node's own lines, from its header to the next. */
  function OwnLines(lines: Lines, start: nat): Lines
    requires start < |lines|
  {
    lines[start..NextHeader(lines, start + 1)]
  }

  lemma OwnHeaders(lines: Lines, start: nat)
    requires start < |lines| && IsHeader(lines[start])
    ensures Tally(OwnLines(lines, start), HeaderIn) == multiset{TopKey(lines[start]).value}
  {
    hide TopKey, NextHeader;
    var next := NextHeader(lines, start + 1);
    NextHeaderIsFirst(lines, start + 1);
    var rest := lines[start + 1..next];
    assert OwnLines(lines, start) == [lines[start]] + rest;
    TallyNone(rest, HeaderIn);
    TallyOne(lines[start], HeaderIn);
    TallyAppend([lines[start]], rest, HeaderIn);
  }

  /** What is written for a new node is a blank line and the node's own lines, and so
      holds its header alone, exactly when that header is clean. */
  lemma NewNodeLines(f: Files, ins: Insert, n: string)
    requires NodePlaced(f, ins, n)
    ensures var start := f.templateBlocks[n].start;
            && (ins.lines == [""] + OwnLines(f.template, start) <==> Clean(f.template, start))
            && multiset{n} <= Tally(ins.lines, HeaderIn)
            && (Tally(ins.lines, HeaderIn) == multiset{n} <==> Clean(f.template, start))
  {
    hide TopKey, NextHeader;
    var t, start := f.template, f.templateBlocks[n].start;
    var next, end := NextHeader(t, start + 1), BlockEnd(t, start);
    NextHeaderIsFirst(t, start + 1);
    BlankLine();
    TallyOne("", HeaderIn);
    TallyOne(t[start], HeaderIn);
    TallyAppend([""], t[start..end], HeaderIn);
    OwnHeaders(t, start);
    if Clean(t, start) {
      assert next == end by { CleanEnd(t, start); }
    } else {
      CleanEnd(t, start);
      assert t[start..end] == [t[start]] + ([t[start + 1]] + t[start + 2..end]);
      TallyAppend([t[start]], [t[start + 1]] + t[start + 2..end], HeaderIn);
      TallyAppend([t[start + 1]], t[start + 2..end], HeaderIn);
      TallyOne(t[start + 1], HeaderIn);
      assert |Tally(ins.lines, HeaderIn)| >= 2;
      assert |ins.lines| > |[""] + OwnLines(t, start)|;
    }
  }

  lemma BlankLine()
    ensures TopName("").None? && !IsHeader("") && SubKey("").None?
  {
  }

  lemma CleanEnd(lines: Lines, start: nat)
    requires start < |lines|
    ensures if Clean(lines, start) then BlockEnd(lines, start) == NextHeader(lines, start + 1)
            else BlockEnd(lines, start) == |lines| > start + 1 == NextHeader(lines, start + 1)
  {
    hide TopKey;
  }

  predicate HasName(lines: Lines, n: string) {
    exists i :: 0 <= i < |lines| && TopName(lines[i]) == Some(n)
  }

  lemma {:induction false} TallyMember(lines: Lines, n: string)
    ensures n in Tally(lines, NameIn) <==> HasName(lines, n)
    decreases |lines|
  {
    hide TopName;
    if lines != [] {
      TallyMember(lines[1..], n);
      assert forall i :: 0 <= i < |lines| - 1 ==> lines[1..][i] == lines[i + 1];
      assert HasName(lines, n) <==> TopName(lines[0]) == Some(n) || HasName(lines[1..], n) by {
        if HasName(lines[1..], n) {
          var i :| 0 <= i < |lines| - 1 && TopName(lines[1..][i]) == Some(n);
          assert TopName(lines[i + 1]) == Some(n);
        }
        if HasName(lines, n) {
          var i :| 0 <= i < |lines| && TopName(lines[i]) == Some(n);
          if i > 0 { assert TopName(lines[1..][i - 1]) == Some(n); }
        }
      }
    }
  }

  lemma NoNamesTally(lines: Lines)
    ensures Tally(lines, NameIn) == multiset{} <==> NoNames(lines)
  {
    hide TopName, Tally;
    if NoNames(lines) {
      TallyNone(lines, NameIn);
    } else {
      var i :| 0 <= i < |lines| && TopName(lines[i]).Some?;
      TallyMember(lines, TopName(lines[i]).value);
      assert TopName(lines[i]) == Some(TopName(lines[i]).value);
    }
  }

  /** What parse_blocks takes for the node's lines opens no entry but the node itself. */
  predicate Alone(lines: Lines, start: nat) {
    start < |lines| ==> NoNames(lines[start + 1..BlockEnd(lines, start)])
  }

  /** That takes in that the header is clean. */
  lemma AloneIsClean(lines: Lines, start: nat)
    requires start < |lines| && Alone(lines, start)
    ensures Clean(lines, start)
  {
    hide TopKey, TopName;
    if !Clean(lines, start) {
      CleanEnd(lines, start);
      HeadersAreNamed(lines[start + 1]);
    }
  }

  /** What is written for a new node holds its name alone exactly when the node stands
      alone in the template. */
  lemma NewNodeNames(f: Files, ins: Insert, n: string)
    requires NodePlaced(f, ins, n)
    ensures multiset{n} <= Tally(ins.lines, NameIn)
    ensures Tally(ins.lines, NameIn) == multiset{n} <==> Alone(f.template, f.templateBlocks[n].start)
  {
    hide TopKey, TopName, NextHeader, BlockEnd;
    var t, start := f.template, f.templateBlocks[n].start;
    var end := BlockEnd(t, start);
    BlockEndInside(t, start);
    BlankLine();
    HeadersAreNamed(t[start]);
    var rest := t[start + 1..end];
    assert ins.lines == ["", t[start]] + rest;
    TallyOne("", NameIn);
    TallyOne(t[start], NameIn);
    TallyAppend([""], [t[start]], NameIn);
    TallyAppend(["", t[start]], rest, NameIn);
    assert [""] + [t[start]] == ["", t[start]];
    NoNamesTally(rest);
    hide Tally, NoNames;
    var more := Tally(rest, NameIn);
    assert Tally(ins.lines, NameIn) == multiset{n} + more;
    if multiset{n} + more == multiset{n} {
      assert |multiset{n} + more| == 1 + |more|;
    }
  }

  /* ---- exactly when nothing is added twice ---- */

  function NewName(ins: Insert): multiset<string> {
    if ins.origin.NewNode? then multiset{ins.origin.node} else multiset{}
  }

  /** The names of the new nodes. */
  function NewNames(inserts: seq<Insert>): multiset<string> {
    if inserts == [] then multiset{}
    else NewNames(inserts[..|inserts| - 1]) + NewName(inserts[|inserts| - 1])
  }

  /** The key that was asked for, or all the keys of the node that was. */
  function NewKeysOf(f: Files, ins: Insert): multiset<string> {
    match ins.origin
    case NewKey(_, key) => multiset{key}
    case NewNode(n) =>
      if n in f.templateBlocks && f.templateBlocks[n].start < |f.template|
      then Tally(OwnLines(f.template, f.templateBlocks[n].start), KeyIn) else multiset{}
  }

  function NewKeys(f: Files, inserts: seq<Insert>): multiset<string> {
    if inserts == [] then multiset{}
    else NewKeys(f, inserts[..|inserts| - 1]) + NewKeysOf(f, inserts[|inserts| - 1])
  }

  predicate CleanNode(f: Files, ins: Insert) {
    ins.origin.NewNode? && ins.origin.node in f.templateBlocks ==>
      Clean(f.template, f.templateBlocks[ins.origin.node].start)
  }

  predicate AllClean(f: Files, inserts: seq<Insert>) {
    forall i :: 0 <= i < |inserts| ==> CleanNode(f, inserts[i])
  }

  predicate NodeAlone(f: Files, ins: Insert) {
    ins.origin.NewNode? && ins.origin.node in f.templateBlocks ==>
      Alone(f.template, f.templateBlocks[ins.origin.node].start)
  }

  predicate AllAlone(f: Files, inserts: seq<Insert>) {
    forall i :: 0 <= i < |inserts| ==> NodeAlone(f, inserts[i])
  }

  lemma InsertHeaders(f: Files, ins: Insert)
    requires WellPlaced(f, ins)
    ensures NewName(ins) <= Tally(ins.lines, HeaderIn)
    ensures Tally(ins.lines, HeaderIn) == NewName(ins) <==> CleanNode(f, ins)
  {
    hide TopKey, TopName, SubKey, Tally, Clean;
    match ins.origin
    case NewNode(n) => NewNodeLines(f, ins, n);
    case NewKey(_, _) =>
      forall i | 0 <= i < |ins.lines| ensures !IsHeader(ins.lines[i]) { HeadersAreNamed(ins.lines[i]); }
      TallyNone(ins.lines, HeaderIn);
  }

  lemma InsertNames(f: Files, ins: Insert)
    requires WellPlaced(f, ins)
    ensures NewName(ins) <= Tally(ins.lines, NameIn)
    ensures Tally(ins.lines, NameIn) == NewName(ins) <==> NodeAlone(f, ins)
  {
    hide TopKey, TopName, SubKey, Tally, Alone;
    match ins.origin
    case NewNode(n) => NewNodeNames(f, ins, n);
    case NewKey(_, _) => TallyNone(ins.lines, NameIn);
  }

  lemma InsertKeys(f: Files, ins: Insert)
    requires WellPlaced(f, ins) && CleanNode(f, ins)
    ensures Tally(ins.lines, KeyIn) == NewKeysOf(f, ins)
  {
    hide TopKey, SubKey, Tally, Clean;
    match ins.origin {
      case NewNode(n) =>
        var own := OwnLines(f.template, f.templateBlocks[n].start);
        NewNodeLines(f, ins, n);
        BlankLine();
        TallyOne("", KeyIn);
        TallyAppend([""], own, KeyIn);
      case NewKey(_, key) =>
        TallyOne(ins.lines[0], KeyIn);
        TallyNone(ins.lines[1..], KeyIn);
        TallyAppend([ins.lines[0]], ins.lines[1..], KeyIn);
        assert ins.lines == [ins.lines[0]] + ins.lines[1..];
    }
  }

  lemma SumsAgree(a: multiset<string>, b: multiset<string>, x: multiset<string>, y: multiset<string>)
    requires a <= b && x <= y
    ensures a + x <= b + y
    ensures a + x == b + y <==> a == b && x == y
  {
    if a + x == b + y {
      forall k: string
        ensures a[k] == b[k] && x[k] == y[k]
      {
        assert (a + x)[k] == (b + y)[k];
      }
    }
  }

  /** If each insert contributes at least the name asked for, they contribute those
      names and nothing more exactly when each does. */
  lemma {:induction false} InsertedTally(inserts: seq<Insert>, of: string -> multiset<string>)
    requires forall i :: 0 <= i < |inserts| ==> NewName(inserts[i]) <= Tally(inserts[i].lines, of)
    ensures NewNames(inserts) <= TallyAll(inserts, of)
    ensures TallyAll(inserts, of) == NewNames(inserts)
            <==> forall i :: 0 <= i < |inserts| ==> Tally(inserts[i].lines, of) == NewName(inserts[i])
    decreases |inserts|
  {
    hide Tally, NewName;
    if inserts != [] {
      var before, last := inserts[..|inserts| - 1], inserts[|inserts| - 1];
      InsertedTally(before, of);
      SumsAgree(NewNames(before), TallyAll(before, of), NewName(last), Tally(last.lines, of));
      assert forall i :: 0 <= i < |before| ==> inserts[i] == before[i];
      assert inserts[|before|] == last;
    }
  }

  lemma {:induction false} InsertedKeys(f: Files, inserts: seq<Insert>)
    requires AllPlaced(f, inserts) && AllClean(f, inserts)
    ensures TallyAll(inserts, KeyIn) == NewKeys(f, inserts)
    decreases |inserts|
  {
    hide TopKey, SubKey, Tally, Clean, CleanNode, WellPlaced, NewKeysOf;
    if inserts != [] {
      InsertedKeys(f, inserts[..|inserts| - 1]);
      InsertKeys(f, inserts[|inserts| - 1]);
    }
  }

  lemma AllInFile(f: Files, inserts: seq<Insert>)
    requires AllPlaced(f, inserts)
    ensures InFile(f.user, inserts)
  {
    forall i | 0 <= i < |inserts|
      ensures inserts[i].pos <= |f.user|
    {
      assert WellPlaced(f, inserts[i]);
    }
  }

  /** The headers of the result are the user's and the new nodes' names, and nothing
      more, exactly when every new node's header is clean. */
  lemma HeadersOfResult(f: Files, inserts: seq<Insert>)
    requires AllPlaced(f, inserts)
    ensures Tally(Merged(f.user, inserts), HeaderIn) == Tally(f.user, HeaderIn) + NewNames(inserts)
            <==> AllClean(f, inserts)
    ensures Tally(f.user, HeaderIn) + NewNames(inserts) <= Tally(Merged(f.user, inserts), HeaderIn)
  {
    hide Tally, TallyAll, Merged, CleanNode, WellPlaced, NewNames, NewName;
    AllInFile(f, inserts);
    TallyMerged(f.user, inserts, HeaderIn);
    forall i | 0 <= i < |inserts|
      ensures NewName(inserts[i]) <= Tally(inserts[i].lines, HeaderIn)
      ensures Tally(inserts[i].lines, HeaderIn) == NewName(inserts[i]) <==> CleanNode(f, inserts[i])
    {
      InsertHeaders(f, inserts[i]);
    }
    InsertedTally(inserts, HeaderIn);
    SumsAgree(Tally(f.user, HeaderIn), Tally(f.user, HeaderIn), NewNames(inserts), TallyAll(inserts, HeaderIn));
  }

  /** The entries the result opens are the user's and the new nodes, and nothing more,
      exactly when every new node stands alone. */
  lemma NamesOfResult(f: Files, inserts: seq<Insert>)
    requires AllPlaced(f, inserts)
    ensures Tally(Merged(f.user, inserts), NameIn) == Tally(f.user, NameIn) + NewNames(inserts)
            <==> AllAlone(f, inserts)
    ensures Tally(f.user, NameIn) + NewNames(inserts) <= Tally(Merged(f.user, inserts), NameIn)
  {
    hide Tally, TallyAll, Merged, NodeAlone, WellPlaced, NewNames, NewName;
    AllInFile(f, inserts);
    TallyMerged(f.user, inserts, NameIn);
    forall i | 0 <= i < |inserts|
      ensures NewName(inserts[i]) <= Tally(inserts[i].lines, NameIn)
      ensures Tally(inserts[i].lines, NameIn) == NewName(inserts[i]) <==> NodeAlone(f, inserts[i])
    {
      InsertNames(f, inserts[i]);
    }
    InsertedTally(inserts, NameIn);
    SumsAgree(Tally(f.user, NameIn), Tally(f.user, NameIn), NewNames(inserts), TallyAll(inserts, NameIn));
  }

  /** With clean headers its keys are the user's, the added keys, and those of the new
      nodes. */
  lemma KeysOfResult(f: Files, inserts: seq<Insert>)
    requires AllPlaced(f, inserts) && AllClean(f, inserts)
    ensures Tally(Merged(f.user, inserts), KeyIn) == Tally(f.user, KeyIn) + NewKeys(f, inserts)
  {
    hide Tally, TallyAll, Merged, Clean, WellPlaced, NewKeys, AllClean;
    AllInFile(f, inserts);
    TallyMerged(f.user, inserts, KeyIn);
    InsertedKeys(f, inserts);
  }

  lemma {:induction false} NamesAreOrigins(inserts: seq<Insert>, n: string)
    ensures n in NewNames(inserts) <==> exists i :: 0 <= i < |inserts| && inserts[i].origin == NewNode(n)
    decreases |inserts|
  {
    if inserts != [] {
      var before, last := inserts[..|inserts| - 1], inserts[|inserts| - 1];
      NamesAreOrigins(before, n);
      assert forall i :: 0 <= i < |before| ==> inserts[i] == before[i];
      assert n in NewNames(inserts) <==> n in NewNames(before) || last.origin == NewNode(n);
      assert inserts[|inserts| - 1] == last;
    }
  }

  /** Every node the template has and the user lacks has a clean header. */
  predicate MissingAreClean(f: Files, wanted: seq<(string, Yaml)>, user: map<string, Yaml>) {
    forall i :: 0 <= i < |wanted| && wanted[i].0 !in user && wanted[i].0 in f.templateBlocks ==>
      Clean(f.template, f.templateBlocks[wanted[i].0].start)
  }

  /** ... and stands alone in the template. */
  predicate MissingAreAlone(f: Files, wanted: seq<(string, Yaml)>, user: map<string, Yaml>) {
    forall i :: 0 <= i < |wanted| && wanted[i].0 !in user && wanted[i].0 in f.templateBlocks ==>
      Alone(f.template, f.templateBlocks[wanted[i].0].start)
  }

  /** The entries the result opens are the user's and the missing nodes exactly when all
      missing nodes stand alone; its keys are the user's and those added if their headers
      are clean, as they then are. */
  lemma NothingAddedTwice(f: Files, wanted: seq<(string, Yaml)>, user: map<string, Yaml>)
    requires Read(f) && FilePlan(f, wanted, user).Planned?
    ensures var inserts := FilePlan(f, wanted, user).inserts;
            var result := Merged(f.user, inserts);
            && (Tally(result, NameIn) == Tally(f.user, NameIn) + NewNames(inserts)
                <==> MissingAreAlone(f, wanted, user))
            && (Tally(result, HeaderIn) == Tally(f.user, HeaderIn) + NewNames(inserts)
                <==> MissingAreClean(f, wanted, user))
            && (MissingAreClean(f, wanted, user) ==>
                  Tally(result, KeyIn) == Tally(f.user, KeyIn) + NewKeys(f, inserts))
            && (forall n :: n in user ==> n !in NewNames(inserts))
            && (MissingAreAlone(f, wanted, user) ==> MissingAreClean(f, wanted, user))
  {
    hide Read, Tally, Merged, Clean, Alone, WellPlaced, NewNames, NewKeys, FilePlan;
    var inserts := FilePlan(f, wanted, user).inserts;
    FilePlaced(f, wanted, user);
    HeadersOfResult(f, inserts);
    NamesOfResult(f, inserts);
    MissingAreNew(f, wanted, user);
    if AllClean(f, inserts) {
      KeysOfResult(f, inserts);
    }
    forall n | n in user
      ensures n !in NewNames(inserts)
    {
      NewIsMissing(f, wanted, user, n);
    }
    forall i | 0 <= i < |wanted| && wanted[i].0 in f.templateBlocks
      ensures var start := f.templateBlocks[wanted[i].0].start; Alone(f.template, start) ==> Clean(f.template, start)
    {
      StartInside(f, wanted[i].0);
      var start := f.templateBlocks[wanted[i].0].start;
      if Alone(f.template, start) { AloneIsClean(f.template, start); }
    }
  }

  lemma StartInside(f: Files, n: string)
    requires Read(f) && n in f.templateBlocks
    ensures f.templateBlocks[n].start < |f.template|
  {
    hide TopKey, KeysUpTo, ContentEnd, NextHeader;
    assert BlockOf(f.template, n, f.templateBlocks[n]);
  }

  lemma NewIsMissing(f: Files, wanted: seq<(string, Yaml)>, user: map<string, Yaml>, n: string)
    requires FilePlan(f, wanted, user).Planned? && n in user
    ensures n !in NewNames(FilePlan(f, wanted, user).inserts)
  {
    hide FilePlan, NewNames;
    var plan := FilePlan(f, wanted, user);
    NamesAreOrigins(plan.inserts, n);
    AddedExactly(f, wanted, user, NewNode(n));
  }

  lemma MissingAreNew(f: Files, wanted: seq<(string, Yaml)>, user: map<string, Yaml>)
    requires FilePlan(f, wanted, user).Planned?
    ensures AllClean(f, FilePlan(f, wanted, user).inserts) <==> MissingAreClean(f, wanted, user)
    ensures AllAlone(f, FilePlan(f, wanted, user).inserts) <==> MissingAreAlone(f, wanted, user)
  {
    hide FilePlan, Clean, Alone;
    var inserts := FilePlan(f, wanted, user).inserts;
    forall k | 0 <= k < |inserts| && inserts[k].origin.NewNode?
      ensures exists i :: 0 <= i < |wanted| && wanted[i].0 == inserts[k].origin.node && wanted[i].0 !in user
    {
      NewNodesAreMissing(f, wanted, user, k);
    }
    forall i | 0 <= i < |wanted| && wanted[i].0 !in user
      ensures exists k :: 0 <= k < |inserts| && inserts[k].origin == NewNode(wanted[i].0)
    {
      MissingNodesAreNew(f, wanted, user, i);
    }
    hide AllClean, AllAlone, MissingAreClean, MissingAreAlone;
    MissingIffNew(f, wanted, user, inserts);
  }

  /** Each new node is a missing one ... */
  lemma NewNodesAreMissing(f: Files, wanted: seq<(string, Yaml)>, user: map<string, Yaml>, k: nat)
    requires FilePlan(f, wanted, user).Planned? && k < |FilePlan(f, wanted, user).inserts|
    requires FilePlan(f, wanted, user).inserts[k].origin.NewNode?
    ensures exists i :: 0 <= i < |wanted|
              && wanted[i].0 == FilePlan(f, wanted, user).inserts[k].origin.node && wanted[i].0 !in user
  {
    hide FilePlan;
    var plan := FilePlan(f, wanted, user);
    AddedExactly(f, wanted, user, plan.inserts[k].origin);
    assert Adds(plan, plan.inserts[k].origin);
  }

  /** ... and each missing node is a new one. */
  lemma MissingNodesAreNew(f: Files, wanted: seq<(string, Yaml)>, user: map<string, Yaml>, i: nat)
    requires FilePlan(f, wanted, user).Planned? && i < |wanted| && wanted[i].0 !in user
    ensures exists k :: 0 <= k < |FilePlan(f, wanted, user).inserts|
              && FilePlan(f, wanted, user).inserts[k].origin == NewNode(wanted[i].0)
  {
    hide FilePlan;
    var o := NewNode(wanted[i].0);
    AddedExactly(f, wanted, user, o);
    assert Asks(f, wanted[i], user, o);
  }

  lemma MissingIffNew(f: Files, wanted: seq<(string, Yaml)>, user: map<string, Yaml>, inserts: seq<Insert>)
    requires forall k :: 0 <= k < |inserts| && inserts[k].origin.NewNode? ==>
               exists i :: 0 <= i < |wanted| && wanted[i].0 == inserts[k].origin.node && wanted[i].0 !in user
    requires forall i :: 0 <= i < |wanted| && wanted[i].0 !in user ==>
               exists k :: 0 <= k < |inserts| && inserts[k].origin == NewNode(wanted[i].0)
    ensures AllClean(f, inserts) <==> MissingAreClean(f, wanted, user)
    ensures AllAlone(f, inserts) <==> MissingAreAlone(f, wanted, user)
  {
    hide Clean, Alone;
    if AllClean(f, inserts) {
      forall i | 0 <= i < |wanted| && wanted[i].0 !in user && wanted[i].0 in f.templateBlocks
        ensures Clean(f.template, f.templateBlocks[wanted[i].0].start)
      {
        var k :| 0 <= k < |inserts| && inserts[k].origin == NewNode(wanted[i].0);
        assert CleanNode(f, inserts[k]);
      }
    }
    if AllAlone(f, inserts) {
      forall i | 0 <= i < |wanted| && wanted[i].0 !in user && wanted[i].0 in f.templateBlocks
        ensures Alone(f.template, f.templateBlocks[wanted[i].0].start)
      {
        var k :| 0 <= k < |inserts| && inserts[k].origin == NewNode(wanted[i].0);
        assert NodeAlone(f, inserts[k]);
      }
    }
  }

  /* ---- exactly when a node of the user's is written again ---- */

  /** No line after the header at `start` that is taken for the node's opens an entry
      the user has. */
  predicate NoneOfUsers(lines: Lines, start: nat, user: map<string, Yaml>) {
    start < |lines| ==>
      forall i :: start < i < BlockEnd(lines, start) && i < |lines| && TopName(lines[i]).Some? ==>
        TopName(lines[i]).value !in user
  }

  /** These lines open no entry the user has. */
  predicate Foreign(lines: Lines, user: map<string, Yaml>) { forall n :: n in user ==> !HasName(lines, n) }

  lemma NodeIsForeign(f: Files, ins: Insert, n: string, user: map<string, Yaml>)
    requires NodePlaced(f, ins, n) && n !in user
    ensures Foreign(ins.lines, user) <==> NoneOfUsers(f.template, f.templateBlocks[n].start, user)
  {
    hide TopKey, TopName, BlockEnd;
    var t, start := f.template, f.templateBlocks[n].start;
    BlockEndInside(t, start);
    BlankLine();
    HeadersAreNamed(t[start]);
    assert forall i :: 1 <= i < |ins.lines| ==> ins.lines[i] == t[start + i - 1];
    if Foreign(ins.lines, user) {
      forall i | start < i < BlockEnd(t, start) && TopName(t[i]).Some?
        ensures TopName(t[i]).value !in user
      {
        assert ins.lines[i - start + 1] == t[i];
        assert HasName(ins.lines, TopName(t[i]).value);
      }
    }
    if NoneOfUsers(t, start, user) {
      forall m | m in user
        ensures !HasName(ins.lines, m)
      {
        forall i | 0 <= i < |ins.lines|
          ensures TopName(ins.lines[i]) != Some(m)
        {
          if i >= 1 { assert ins.lines[i] == t[start + i - 1]; }
        }
      }
    }
  }

  predicate ForeignOrigin(f: Files, ins: Insert, user: map<string, Yaml>) {
    ins.origin.NewNode? ==> ForeignName(f, ins.origin.node, user)
  }

  lemma InsertIsForeign(f: Files, ins: Insert, user: map<string, Yaml>)
    requires WellPlaced(f, ins) && (ins.origin.NewNode? ==> ins.origin.node !in user)
    ensures Foreign(ins.lines, user) <==> ForeignOrigin(f, ins, user)
  {
    hide TopKey, TopName, SubKey, NoneOfUsers;
    match ins.origin
    case NewNode(n) => NodeIsForeign(f, ins, n, user);
    case NewKey(_, _) => assert forall i :: 0 <= i < |ins.lines| ==> TopName(ins.lines[i]).None?;
  }

  /** Nothing the inserts write is named like a node of the user's exactly when no single
      one does. */
  lemma {:induction false} AllForeign(inserts: seq<Insert>, user: map<string, Yaml>)
    ensures (forall n :: n in user ==> TallyAll(inserts, NameIn)[n] == 0)
            <==> forall i :: 0 <= i < |inserts| ==> Foreign(inserts[i].lines, user)
    decreases |inserts|
  {
    hide Tally, HasName;
    if inserts != [] {
      var before, last := inserts[..|inserts| - 1], inserts[|inserts| - 1];
      AllForeign(before, user);
      forall n | n in user
        ensures TallyAll(inserts, NameIn)[n] == 0 <==>
                  TallyAll(before, NameIn)[n] == 0 && !HasName(last.lines, n)
      {
        TallyMember(last.lines, n);
      }
      assert forall i :: 0 <= i < |before| ==> inserts[i] == before[i];
      assert inserts[|before|] == last;
    }
  }

  /** No missing node brings an entry the user has. */
  predicate MissingAreForeign(f: Files, wanted: seq<(string, Yaml)>, user: map<string, Yaml>) {
    forall i :: 0 <= i < |wanted| && wanted[i].0 !in user ==> ForeignName(f, wanted[i].0, user)
  }

  predicate ForeignName(f: Files, n: string, user: map<string, Yaml>) {
    n in f.templateBlocks ==> NoneOfUsers(f.template, f.templateBlocks[n].start, user)
  }

  lemma OriginsAreForeign(f: Files, wanted: seq<(string, Yaml)>, user: map<string, Yaml>)
    requires FilePlan(f, wanted, user).Planned?
    ensures var inserts := FilePlan(f, wanted, user).inserts;
            (forall k :: 0 <= k < |inserts| ==> ForeignOrigin(f, inserts[k], user))
            <==> MissingAreForeign(f, wanted, user)
  {
    hide FilePlan, ForeignName;
    var inserts := FilePlan(f, wanted, user).inserts;
    forall k | 0 <= k < |inserts| && inserts[k].origin.NewNode?
      ensures exists i :: 0 <= i < |wanted| && wanted[i].0 == inserts[k].origin.node && wanted[i].0 !in user
    {
      NewNodesAreMissing(f, wanted, user, k);
    }
    if forall k :: 0 <= k < |inserts| ==> ForeignOrigin(f, inserts[k], user) {
      forall i | 0 <= i < |wanted| && wanted[i].0 !in user
        ensures ForeignName(f, wanted[i].0, user)
      {
        MissingNodesAreNew(f, wanted, user, i);
        var k :| 0 <= k < |inserts| && inserts[k].origin == NewNode(wanted[i].0);
        assert ForeignOrigin(f, inserts[k], user);
      }
    }
  }

  /** An entry the user has stands in the result as often as in the user's file, for
      every such entry, exactly when no missing node has one of them in the template
      between its header and where parse_blocks ends it. */
  lemma UserNodesStayOnce(f: Files, wanted: seq<(string, Yaml)>, user: map<string, Yaml>)
    requires Read(f) && FilePlan(f, wanted, user).Planned?
    ensures var result := Merged(f.user, FilePlan(f, wanted, user).inserts);
            (forall n :: n in user ==> Tally(result, NameIn)[n] == Tally(f.user, NameIn)[n])
            <==> MissingAreForeign(f, wanted, user)
  {
    hide Read, Tally, TallyAll, Merged, WellPlaced, FilePlan, ForeignOrigin, Foreign;
    var inserts := FilePlan(f, wanted, user).inserts;
    FilePlaced(f, wanted, user);
    AllInFile(f, inserts);
    TallyMerged(f.user, inserts, NameIn);
    AllForeign(inserts, user);
    forall k | 0 <= k < |inserts|
      ensures Foreign(inserts[k].lines, user) <==> ForeignOrigin(f, inserts[k], user)
    {
      assert Adds(FilePlan(f, wanted, user), inserts[k].origin);
      AddedExactly(f, wanted, user, inserts[k].origin);
      InsertIsForeign(f, inserts[k], user);
    }
    OriginsAreForeign(f, wanted, user);
  }

  const EMPTY_NODE: Lines := ["a:", "b:", "  z: 3"]
  const HAS_NODE: Lines := ["b:", "  z: 9"]

  lemma PlainLines()
    ensures TopKey("a:") == Some("a") && TopKey("b:") == Some("b")
    ensures TopKey("  z: 3").None? && TopKey("  z: 9").None?
  {
    assert BeforeColon("a:") == ["a"[0]] + BeforeColon(":") == "a";
    assert BeforeColon("b:") == ["b"[0]] + BeforeColon(":") == "b";
    assert Strip("a") == "a" && Strip("b") == "b";
  }

  const WANTED: seq<(string, Yaml)> := [("a", Scalar), ("b", Mapping(["z"]))]
  const HAVING: map<string, Yaml> := map["b" := Mapping(["z"])]
  const REPEATED := Insert(2, ["", "a:", "b:", "  z: 3"], NewNode("a"))

  /** A template whose first node is empty, against a user file that has the second:
      the second is written again with its key, behind the user's own. */
  lemma EmptyNodeRepeatsTheNext(f: Files)
    requires Read(f) && f.template == EMPTY_NODE && f.user == HAS_NODE
    ensures FilePlan(f, WANTED, HAVING) == Planned([REPEATED])
    ensures Merged(HAS_NODE, [REPEATED]) == ["b:", "  z: 9", "", "a:", "b:", "  z: 3"]
    ensures !MissingAreClean(f, WANTED, HAVING)
  {
    EmptyNodeBlock(f);
    hide Read, Clean, FilePlan, NodePlan, Merged, TopKey;
    RepeatedPlan(f);
    SettledPlan(f);
    TwoEntries(f, WANTED[0], WANTED[1], HAVING, [REPEATED]);
    OneInsert();
    assert WANTED[0].0 == "a" && "a" !in HAVING;
  }

  lemma RepeatedPlan(f: Files)
    requires "a" in f.templateBlocks && f.templateBlocks["a"].start == 0 && f.templateBlocks["a"].end == 3
    requires f.template == EMPTY_NODE && f.user == HAS_NODE
    ensures NodePlan(f, "a", Scalar, HAVING) == Planned([REPEATED])
  {
    assert "a" != "b";
    assert EMPTY_NODE[0..3] == EMPTY_NODE;
    assert [""] + EMPTY_NODE == ["", "a:", "b:", "  z: 3"];
  }

  lemma SettledPlan(f: Files)
    requires "b" in f.userBlocks
    ensures NodePlan(f, "b", Mapping(["z"]), HAVING) == Planned([])
  {
    var at := f.userBlocks["b"].contentEnd;
    assert ["z"][..0] == [];
    assert KeyPlan(f, "b", at, Mapping(["z"]), "z") == Planned([]);
    assert KeysPlan(f, "b", at, Mapping(["z"]), []) == Planned([]);
  }

  lemma TwoEntries(f: Files, x: (string, Yaml), y: (string, Yaml), user: map<string, Yaml>, inserts: seq<Insert>)
    requires NodePlan(f, x.0, x.1, user) == Planned(inserts) && NodePlan(f, y.0, y.1, user) == Planned([])
    ensures FilePlan(f, [x, y], user) == Planned(inserts)
  {
    hide NodePlan;
    assert [x, y][..1] == [x] && [x][..0] == [];
    assert FilePlan(f, [x], user) == Planned(inserts);
    assert inserts + [] == inserts;
  }

  lemma OneInsert()
    ensures Merged(HAS_NODE, [REPEATED]) == ["b:", "  z: 9", "", "a:", "b:", "  z: 3"]
  {
    hide Merged;
    InsertAtEnd(HAS_NODE, REPEATED);
  }

  lemma EmptyNodeBlock(f: Files)
    requires Read(f) && f.template == EMPTY_NODE && f.user == HAS_NODE
    ensures "a" in f.templateBlocks && f.templateBlocks["a"].start == 0 && f.templateBlocks["a"].end == 3
    ensures !Clean(EMPTY_NODE, 0) && "b" in f.userBlocks
  {
    PlainLines();
    hide TopKey, SubKey, KeysUpTo, ContentEnd;
    assert IsHeader(EMPTY_NODE[0]) && IsHeader(EMPTY_NODE[1]) && IsHeader(HAS_NODE[0]);
    var b := f.templateBlocks["a"];
    assert BlockOf(f.template, "a", b);
    assert TopKey(f.template[b.start]) == Some("a");
  }

  const PLAIN_ENTRY: Lines := ["a:", "  x: 1", "b: 5"]
  const PLAIN_WANTED: seq<(string, Yaml)> := [("a", Mapping(["x"])), ("b", Scalar)]
  const PLAIN_HAVING: map<string, Yaml> := map["b" := Scalar]
  const PLAIN_REPEATED := Insert(1, ["", "a:", "  x: 1", "b: 5"], NewNode("a"))

  lemma PlainNames()
    ensures TopName("b: 5") == Some("b") && TopKey("b: 5").None? && TopKey("  x: 1").None?
    ensures TopName("b: 7") == Some("b") && TopName("b: # note") == Some("b") && TopKey("b: # note").None?
  {
    assert forall rest: string {:trigger "b:" + rest} :: BeforeColon("b:" + rest) == "b" by {
      forall rest: string {:trigger "b:" + rest}
        ensures BeforeColon("b:" + rest) == "b"
      {
        assert ("b:" + rest)[1..] == ":" + rest;
        assert BeforeColon(":" + rest) == "";
      }
    }
    assert "b: 5" == "b:" + " 5" && "b: 7" == "b:" + " 7" && "b: # note" == "b:" + " # note";
    assert Strip("b") == "b";
  }

  /** A template whose entry `b: 5` follows a node the user lacks, against a user file
      that has the entry: it is written again behind the user's own, although every
      header is clean. */
  lemma PlainEntryIsRepeated(f: Files)
    requires Read(f) && f.template == PLAIN_ENTRY && f.user == ["b: 7"]
    ensures FilePlan(f, PLAIN_WANTED, PLAIN_HAVING) == Planned([PLAIN_REPEATED])
    ensures Merged(f.user, [PLAIN_REPEATED]) == ["b: 7", "", "a:", "  x: 1", "b: 5"]
    ensures MissingAreClean(f, PLAIN_WANTED, PLAIN_HAVING)
    ensures !MissingAreForeign(f, PLAIN_WANTED, PLAIN_HAVING)
  {
    PlainBlock(f);
    PlainConditions(f);
    PlainPlan(f);
    hide Read, FilePlan, NodePlan, Merged, MissingAreClean, MissingAreForeign;
    TwoEntries(f, PLAIN_WANTED[0], PLAIN_WANTED[1], PLAIN_HAVING, [PLAIN_REPEATED]);
    PlainMerged(f.user);
  }

  lemma PlainMerged(user: Lines)
    requires user == ["b: 7"]
    ensures Merged(user, [PLAIN_REPEATED]) == ["b: 7", "", "a:", "  x: 1", "b: 5"]
  {
    hide Merged;
    InsertAtEnd(user, PLAIN_REPEATED);
  }

  lemma PlainConditions(f: Files)
    requires "a" in f.templateBlocks && f.templateBlocks["a"].start == 0 && f.template == PLAIN_ENTRY
    requires BlockEnd(PLAIN_ENTRY, 0) == 3 && Clean(PLAIN_ENTRY, 0)
    ensures MissingAreClean(f, PLAIN_WANTED, PLAIN_HAVING)
    ensures !MissingAreForeign(f, PLAIN_WANTED, PLAIN_HAVING)
  {
    PlainNames();
    hide Clean, BlockEnd, TopName;
    assert TopName(PLAIN_ENTRY[2]) == Some("b") && "b" in PLAIN_HAVING;
    assert !NoneOfUsers(PLAIN_ENTRY, 0, PLAIN_HAVING);
    assert PLAIN_WANTED[0].0 == "a" && PLAIN_WANTED[1].0 == "b" && "a" !in PLAIN_HAVING;
    assert !ForeignName(f, PLAIN_WANTED[0].0, PLAIN_HAVING);
  }

  lemma PlainPlan(f: Files)
    requires "a" in f.templateBlocks && f.templateBlocks["a"].start == 0 && f.templateBlocks["a"].end == 3
    requires f.template == PLAIN_ENTRY && f.user == ["b: 7"]
    ensures NodePlan(f, "a", Mapping(["x"]), PLAIN_HAVING) == Planned([PLAIN_REPEATED])
    ensures NodePlan(f, "b", Scalar, PLAIN_HAVING) == Planned([])
  {
    assert "a" != "b";
    assert PLAIN_ENTRY[0..3] == PLAIN_ENTRY;
    assert [""] + PLAIN_ENTRY == ["", "a:", "  x: 1", "b: 5"];
  }

  lemma PlainBlock(f: Files)
    requires Read(f) && f.template == PLAIN_ENTRY
    ensures "a" in f.templateBlocks && f.templateBlocks["a"].start == 0 && f.templateBlocks["a"].end == 3
    ensures BlockEnd(PLAIN_ENTRY, 0) == 3 && Clean(PLAIN_ENTRY, 0)
  {
    PlainLines();
    PlainNames();
    hide TopKey, SubKey, KeysUpTo, ContentEnd;
    assert IsHeader(PLAIN_ENTRY[0]) && !IsHeader(PLAIN_ENTRY[1]) && !IsHeader(PLAIN_ENTRY[2]);
    NextHeaderAt(PLAIN_ENTRY, 1, 3);
    var b := f.templateBlocks["a"];
    assert BlockOf(f.template, "a", b);
    assert TopKey(f.template[b.start]) == Some("a");
  }

  lemma InsertAtEnd(lines: Lines, x: Insert)
    requires x.pos == |lines|
    ensures Merged(lines, [x]) == lines + x.lines
  {
    assert [x][..0] == [];
    assert BlocksAt([x], |lines|) == x.lines;
    WovenPlain(lines, [x], 0, |lines|);
    assert lines[0..|lines|] == lines;
  }

  const NOTED_TEMPLATE: Lines := ["a:", "  x: 1", "  y: 2"]
  const NOTED: Lines := ["a:", "  x: 1", "b: # note", "  z: 3"]
  const NOTED_WANTED: seq<(string, Yaml)> := [("a", Mapping(["x", "y"]))]
  const NOTED_HAVING: map<string, Yaml> := map["a" := Mapping(["x"]), "b" := Mapping(["z"])]
  const NOTED_KEY := Insert(4, ["  y: 2"], NewKey("a", "y"))

  /** Two spaces, a key of one letter, and a value of one. */
  lemma ShortKey(line: string, key: char, value: char)
    requires line == "  " + [key] + ": " + [value] && !IsSpace(key) && !IsSpace(value) && key !in {'#', ':'}
    ensures SubKey(line) == Some([key]) && TopKey(line).None?
  {
    var text := [key] + ": " + [value];
    assert RStrip(line) == line;
    assert line[1..] == " " + text && line[1..][1..] == text;
    assert LStrip(text) == text && LStrip(line[1..]) == text && LStrip(line) == text;
    assert text[1..] == ": " + [value] && text[1..][0] == ':' && text[1] == ':';
    assert BeforeColon(text) == [key] + BeforeColon(text[1..]) == [key];
    assert Strip([key]) == [key];
    assert line[..2] == "  " && line[2] == key;
  }

  /** The header of node b ends in a comment: the program takes b's lines for those of the
      node above it, and writes that node's missing key into b. */
  lemma KeyLandsInTheNext(f: Files)
    requires Read(f) && f.template == NOTED_TEMPLATE && f.user == NOTED
    ensures FilePlan(f, NOTED_WANTED, NOTED_HAVING) == Planned([NOTED_KEY])
    ensures Merged(f.user, [NOTED_KEY]) == ["a:", "  x: 1", "b: # note", "  z: 3", "  y: 2"]
    ensures TopName(f.user[2]) == Some("b")
  {
    NotedUser(f);
    NotedTemplate(f);
    PlainNames();
    NotedPlan(f);
    hide Read, Merged, FilePlan, TopName;
    NotedMerged();
  }

  lemma NotedMerged()
    ensures Merged(NOTED, [NOTED_KEY]) == ["a:", "  x: 1", "b: # note", "  z: 3", "  y: 2"]
  {
    hide Merged;
    InsertAtEnd(NOTED, NOTED_KEY);
  }

  lemma NotedLines()
    ensures TopKey("a:") == Some("a") && TopKey("b: # note").None?
    ensures SubKey("  y: 2") == Some("y") && SubKey("  z: 3") == Some("z")
    ensures TopKey("  x: 1").None? && TopKey("  y: 2").None? && TopKey("  z: 3").None?
  {
    PlainLines();
    PlainNames();
    hide TopKey, SubKey;
    ShortKey("  y: 2", 'y', '2');
    ShortKey("  z: 3", 'z', '3');
  }

  /** A node whose header comes once, with no other before line `next`, where the header
      or the end of the file comes. */
  lemma NodeAt(lines: Lines, nodes: map<string, Block>, at: nat, n: string, next: nat)
    requires Parsed(lines, nodes) && at < next <= |lines| && TopKey(lines[at]) == Some(n)
    requires forall i :: at < i < |lines| ==> TopKey(lines[i]) != Some(n)
    requires forall i :: at < i < next ==> !IsHeader(lines[i])
    requires next < |lines| ==> IsHeader(lines[next])
    ensures n in nodes && nodes[n].start == at && NextHeader(lines, at + 1) == next
    ensures BlockOf(lines, n, nodes[n]) && ContentEnd(nodes[n])
  {
    hide TopKey, NextHeader, KeysUpTo, ContentEnd;
    assert IsHeader(lines[at]);
    assert BlockOf(lines, n, nodes[n]);
    NextHeaderAt(lines, at + 1, next);
  }

  /** A node whose last line sets a key ends its content there. */
  lemma LastKey(lines: Lines, n: string, b: Block, key: string)
    requires BlockOf(lines, n, b) && ContentEnd(b)
    requires var next := NextHeader(lines, b.start + 1);
             b.start + 1 < next && SubKey(lines[next - 1]) == Some(key)
    ensures var next := NextHeader(lines, b.start + 1);
            key in b.keys && b.keys[key] == Span(next - 1, next) && b.contentEnd == next
  {
    hide TopKey, SubKey, SpanEnd, NextHeader;
    var next := NextHeader(lines, b.start + 1);
    assert key in b.keys && next - 1 <= b.keys[key].from;
    KeyInside(lines, n, b, key);
    ContentEndInside(lines, n, b);
  }

  lemma NotedUser(f: Files)
    requires Read(f) && f.user == NOTED
    ensures "a" in f.userBlocks && f.userBlocks["a"].contentEnd == 4
  {
    NotedLines();
    hide TopKey, SubKey, NextHeader, BlockOf, ContentEnd, Parsed;
    assert forall i :: 0 < i < 4 ==> TopKey(NOTED[i]).None?;
    NodeAt(NOTED, f.userBlocks, 0, "a", 4);
    LastKey(NOTED, "a", f.userBlocks["a"], "z");
  }

  lemma NotedTemplate(f: Files)
    requires Read(f) && f.template == NOTED_TEMPLATE
    ensures "a" in f.templateBlocks && "y" in f.templateBlocks["a"].keys
    ensures f.templateBlocks["a"].keys["y"] == Span(2, 3)
  {
    NotedLines();
    hide TopKey, SubKey, NextHeader, BlockOf, ContentEnd, Parsed;
    assert forall i :: 0 < i < 3 ==> TopKey(NOTED_TEMPLATE[i]).None?;
    NodeAt(NOTED_TEMPLATE, f.templateBlocks, 0, "a", 3);
    LastKey(NOTED_TEMPLATE, "a", f.templateBlocks["a"], "y");
  }

  lemma NotedPlan(f: Files)
    requires "a" in f.userBlocks && f.userBlocks["a"].contentEnd == 4 && f.template == NOTED_TEMPLATE
    requires "a" in f.templateBlocks && "y" in f.templateBlocks["a"].keys
    requires f.templateBlocks["a"].keys["y"] == Span(2, 3)
    ensures FilePlan(f, NOTED_WANTED, NOTED_HAVING) == Planned([NOTED_KEY])
  {
    var value, keys := Mapping(["x"]), ["x", "y"];
    assert keys[..1] == ["x"] && ["x"][..0] == [];
    assert "y" != "x" && "a" != "b";
    assert KeyPlan(f, "a", 4, value, "x") == Planned([]);
    assert SliceOf(NOTED_TEMPLATE, 2, 3) == ["  y: 2"];
    assert KeyPlan(f, "a", 4, value, "y") == Planned([NOTED_KEY]);
    assert KeysPlan(f, "a", 4, value, ["x"]) == Planned([]);
    assert KeysPlan(f, "a", 4, value, keys) == Planned([NOTED_KEY]);
    assert NOTED_WANTED[..0] == [];
    assert NodePlan(f, "a", Mapping(keys), NOTED_HAVING) == Planned([NOTED_KEY]);
  }

  /* ---- the tie at the end of the file ---- */

  const TEMPLATE: Lines := ["a:", "  x: 1", "  y: 2", "b:", "  z: 3"]
  const USER: Lines := ["a:", "  x: 1"]
  const TIED := Files(TEMPLATE,
                      map["a" := Block(0, 3, map["x" := Span(1, 2), "y" := Span(2, 3)], 3),
                          "b" := Block(3, 5, map["z" := Span(4, 5)], 5)],
                      USER,
                      map["a" := Block(0, 2, map["x" := Span(1, 2)], 2)])

  /** A key added to the file's last node and a node the template has after it go to
      the same place, and the key ends up under the new node. */
  lemma TieMisplacesKey()
    ensures var key, node := Insert(2, ["  y: 2"], NewKey("a", "y")), Insert(2, ["", "b:", "  z: 3"], NewNode("b"));
            && FilePlan(TIED, [("a", Mapping(["x", "y"])), ("b", Mapping(["z"]))], map["a" := Mapping(["x"])])
               == Planned([key, node])
            && Merged(USER, [key, node]) == ["a:", "  x: 1", "", "b:", "  z: 3", "  y: 2"]
  {
    hide FilePlan, Merged;
    TiePlan();
    TieMerged();
  }

  lemma TieMerged()
    ensures Merged(USER, [Insert(2, ["  y: 2"], NewKey("a", "y")), Insert(2, ["", "b:", "  z: 3"], NewNode("b"))])
            == ["a:", "  x: 1", "", "b:", "  z: 3", "  y: 2"]
  {
    var key, node := Insert(2, ["  y: 2"], NewKey("a", "y")), Insert(2, ["", "b:", "  z: 3"], NewNode("b"));
    assert [key, node][..1] == [key] && [key][..0] == [];
    assert BlocksAt([key], 2) == key.lines;
    assert BlocksAt([key, node], 2) == node.lines + key.lines;
    WovenPlain(USER, [key, node], 0, 2);
    assert USER[0..2] == USER;
  }

  lemma TiePlan()
    ensures FilePlan(TIED, [("a", Mapping(["x", "y"])), ("b", Mapping(["z"]))], map["a" := Mapping(["x"])])
            == Planned([Insert(2, ["  y: 2"], NewKey("a", "y")), Insert(2, ["", "b:", "  z: 3"], NewNode("b"))])
  {
    var wanted, user := [("a", Mapping(["x", "y"])), ("b", Mapping(["z"]))], map["a" := Mapping(["x"])];
    var keys := ["x", "y"];
    assert keys[..1] == ["x"] && ["x"][..0] == [];
    assert "y" != "x";
    var kx, ky := KeyPlan(TIED, "a", 2, Mapping(["x"]), "x"), KeyPlan(TIED, "a", 2, Mapping(["x"]), "y");
    assert kx == Planned([]);
    assert SliceOf(TEMPLATE, 2, 3) == ["  y: 2"];
    assert ky == Planned([Insert(2, ["  y: 2"], NewKey("a", "y"))]);
    assert KeysPlan(TIED, "a", 2, Mapping(["x"]), ["x"]) == Planned([]);
    assert KeysPlan(TIED, "a", 2, Mapping(["x"]), keys) == ky;
    assert wanted[..1] == [("a", Mapping(["x", "y"]))] && wanted[..1][..0] == [];
    assert NodePlan(TIED, "a", Mapping(["x", "y"]), user) == ky;
    assert FilePlan(TIED, wanted[..1], user) == ky;
    assert "b" != "a";
    assert [""] + SliceOf(TEMPLATE, 3, 5) == ["", "b:", "  z: 3"];
  }

  /* ---- main ---- */

  datatype Status = Created | UpToDate | Updated | Failed(error: Plan)

  /** The whole program on a user file that may be missing: the file's content
      afterwards.  An exception or nothing to add leaves it alone. */
  method Sync(template: Lines, file: Option<Lines>, wanted: seq<(string, Yaml)>, user: map<string, Yaml>)
    returns (status: Status, content: Lines, ghost files: Files)
    ensures file.None? <==> status == Created
    ensures status == Created ==> content == template
    ensures file.Some? ==> Read(files) && files.template == template && files.user == file.value
    ensures file.Some? ==>
              (status.Failed? <==> exists i :: 0 <= i < |wanted| && !EntryFine(template, file.value, wanted[i], user))
    ensures status.Failed? ==> content == file.value && status.error == FilePlan(files, wanted, user)
    ensures status == UpToDate ==> content == file.value && FilePlan(files, wanted, user) == Planned([])
    ensures status == Updated ==>
              var plan := FilePlan(files, wanted, user);
              plan.Planned? && plan.inserts != [] && AllPlaced(files, plan.inserts)
              && content == Merged(file.value, plan.inserts)
  {
    files := Files([], map[], [], map[]);
    if file.None? {
      return Created, template, files;
    }
    var templateBlocks := ParseBlocks(template);
    var userBlocks := ParseBlocks(file.value);
    var f := Files(template, templateBlocks, file.value, userBlocks);
    files := f;
    var plan := Collect(f, wanted, user);
    FilePlaced(f, wanted, user);
    PlanSucceeds(f, wanted, user);
    if !plan.Planned? {
      return Failed(plan), file.value, files;
    }
    if plan.inserts == [] {
      return UpToDate, file.value, files;
    }
    content := InsertAll(file.value, plan.inserts) by {
      forall i | 0 <= i < |plan.inserts|
        ensures plan.inserts[i].pos <= |file.value|
      {
        assert WellPlaced(f, plan.inserts[i]);
      }
    }
    status := Updated;
  }
}
