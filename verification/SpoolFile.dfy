/** The durability spool as the text of a file: records as JSON lines, oldest dropped past a
    bound (ingest_grid.py:611-710, ecogrid/plant/bridge.py:41-113). The text is what Python's
    text mode gives, so a newline is the only line end. */
module SpoolFile {
  import opened Common
  import opened Records
  import opened PublisherProtocol

  type Encode = Record -> string
  type Decode = string -> Option<Record>

  /** What Python's `strip` takes off. */
  predicate Space(c: char) {
    || '\t' <= c <= '\r' || '\U{001C}' <= c <= ' ' || c == '\U{0085}' || c == '\U{00A0}' || c == '\U{1680}'
    || '\U{2000}' <= c <= '\U{200A}' || c == '\U{2028}' || c == '\U{2029}' || c == '\U{202F}' || c == '\U{205F}'
    || c == '\U{3000}'
  }

  /** A serialised record: not blank, no newline in it, no space around it. */
  predicate Clean(line: string) {
    |line| > 0 && !Space(line[0]) && !Space(line[|line| - 1]) && '\n' !in line
  }

  /** What is asked of the serialiser: clean lines (section 7 of RFC 8259 escapes newlines) that
      read back as the record. */
  ghost predicate Codec(enc: Encode, dec: Decode) {
    forall r :: Clean(enc(r)) && dec(enc(r)) == Some(r)
  }

  // ---- Reading --------------------------------------------------------------

  /** Complete lines, with their newlines, and what follows the last newline. */
  datatype Split = Split(lines: seq<string>, rest: string)

  function Scan(text: string, n: nat): Split
    requires n <= |text|
  {
    if n == 0 then Split([], "")
    else
      var before := Scan(text, n - 1);
      if text[n - 1] == '\n' then Split(before.lines + [before.rest + "\n"], "")
      else Split(before.lines, before.rest + [text[n - 1]])
  }

  /** `readlines`. */
  function ReadLines(text: string): seq<string> {
    var sp := Scan(text, |text|);
    if sp.rest == "" then sp.lines else sp.lines + [sp.rest]
  }

  /** No line is left open at the end. */
  predicate Ended(text: string) {
    Scan(text, |text|).rest == ""
  }

  function SkipSpace(s: string, i: nat): (j: nat)
    requires i <= |s|
    ensures i <= j <= |s|
    decreases |s| - i
  {
    if i < |s| && Space(s[i]) then SkipSpace(s, i + 1) else i
  }

  function DropSpace(s: string, lo: nat, hi: nat): (j: nat)
    requires lo <= hi <= |s|
    ensures lo <= j <= hi
  {
    if lo < hi && Space(s[hi - 1]) then DropSpace(s, lo, hi - 1) else hi
  }

  function Strip(s: string): string {
    var lo := SkipSpace(s, 0);
    s[lo..DropSpace(s, lo, |s|)]
  }

  /** `load`: blank lines are skipped and corrupt ones discarded. */
  function LoadUpTo(dec: Decode, lines: seq<string>, n: nat): seq<Record>
    requires n <= |lines|
  {
    if n == 0 then []
    else
      var line := Strip(lines[n - 1]);
      if line != "" && dec(line).Some? then LoadUpTo(dec, lines, n - 1) + [dec(line).value]
      else LoadUpTo(dec, lines, n - 1)
  }

  function LoadText(dec: Decode, text: string): seq<Record> {
    LoadUpTo(dec, ReadLines(text), |ReadLines(text)|)
  }

  // ---- Writing --------------------------------------------------------------

  /** The text of the first `n` records, a line each. */
  function Encoded(enc: Encode, rs: seq<Record>, n: nat): string
    requires n <= |rs|
  {
    if n == 0 then "" else Encoded(enc, rs, n - 1) + enc(rs[n - 1]) + "\n"
  }

  function Joined(lines: seq<string>, n: nat): string
    requires n <= |lines|
  {
    if n == 0 then "" else Joined(lines, n - 1) + lines[n - 1]
  }

  /** `_trim`: the last `bound` lines, as Python slices them. */
  function TrimText(text: string, bound: int): string {
    var lines := ReadLines(text);
    var kept := lines[Overflow(|lines|, bound)..];
    if |lines| <= bound then text else Joined(kept, |kept|)
  }

  function AppendText(enc: Encode, text: string, rs: seq<Record>, bound: int): string {
    TrimText(text + Encoded(enc, rs, |rs|), bound)
  }

  // ---- Lines survive writing and reading --------------------------------------

  lemma {:induction false} ScanPrefix(a: string, b: string, n: nat)
    requires n <= |a|
    ensures Scan(a + b, n) == Scan(a, n)
  {
    if n > 0 {
      ScanPrefix(a, b, n - 1);
    }
  }

  /** Scanning on through text without newlines only adds to the open line. */
  lemma {:induction false} ScanOpen(a: string, b: string, n: nat)
    requires n <= |b| && forall i | 0 <= i < n :: b[i] != '\n'
    ensures Scan(a + b, |a| + n) == Split(Scan(a, |a|).lines, Scan(a, |a|).rest + b[..n])
  {
    if n == 0 {
      ScanPrefix(a, b, |a|);
      assert Scan(a, |a|).rest + b[..0] == Scan(a, |a|).rest;
    } else {
      ScanOpen(a, b, n - 1);
      assert (a + b)[|a| + n - 1] == b[n - 1];
      assert Scan(a, |a|).rest + b[..n] == Scan(a, |a|).rest + b[..n - 1] + [b[n - 1]];
    }
  }

  predicate Terminated(line: string) {
    |line| > 0 && line[|line| - 1] == '\n' && forall i | 0 <= i < |line| - 1 :: line[i] != '\n'
  }

  lemma {:induction false} ScanLine(text: string, line: string)
    requires Ended(text) && Terminated(line)
    ensures Ended(text + line) && ReadLines(text + line) == ReadLines(text) + [line]
  {
    var n := |line| - 1;
    ScanOpen(text, line, n);
    assert (text + line)[|text| + n] == '\n';
    assert line[..n] + "\n" == line;
    assert Scan(text, |text|).rest + line[..n] == line[..n];
  }

  lemma {:induction false} ScannedLinesAreTerminated(text: string, n: nat)
    requires n <= |text|
    ensures forall i | 0 <= i < |Scan(text, n).lines| :: Terminated(Scan(text, n).lines[i])
    ensures '\n' !in Scan(text, n).rest
  {
    if n > 0 {
      ScannedLinesAreTerminated(text, n - 1);
    }
  }

  lemma {:induction false} ReadWhatWasJoined(lines: seq<string>, n: nat)
    requires n <= |lines| && forall i | 0 <= i < |lines| :: Terminated(lines[i])
    ensures Ended(Joined(lines, n)) && ReadLines(Joined(lines, n)) == lines[..n]
  {
    if n > 0 {
      ReadWhatWasJoined(lines, n - 1);
      ScanLine(Joined(lines, n - 1), lines[n - 1]);
      assert lines[..n] == lines[..n - 1] + [lines[n - 1]];
    }
  }

  function LinesOf(enc: Encode, rs: seq<Record>): seq<string> {
    seq(|rs|, i requires 0 <= i < |rs| => enc(rs[i]) + "\n")
  }

  lemma {:induction false} EncodedLine(enc: Encode, dec: Decode, r: Record)
    requires Codec(enc, dec)
    ensures Terminated(enc(r) + "\n")
  {
    assert Clean(enc(r));
  }

  lemma {:induction false} ReadWhatWasEncoded(enc: Encode, dec: Decode, text: string, rs: seq<Record>, n: nat)
    requires Codec(enc, dec) && Ended(text) && n <= |rs|
    ensures Ended(text + Encoded(enc, rs, n))
    ensures ReadLines(text + Encoded(enc, rs, n)) == ReadLines(text) + LinesOf(enc, rs)[..n]
  {
    hide Scan, Codec, Clean, ReadLines, Ended;
    if n == 0 {
      assert text + Encoded(enc, rs, 0) == text;
      assert LinesOf(enc, rs)[..0] == [];
    } else {
      ReadWhatWasEncoded(enc, dec, text, rs, n - 1);
      var line := enc(rs[n - 1]) + "\n";
      EncodedLine(enc, dec, rs[n - 1]);
      var was := text + Encoded(enc, rs, n - 1);
      ScanLine(was, line);
      assert text + Encoded(enc, rs, n) == was + line;
      assert LinesOf(enc, rs)[..n] == LinesOf(enc, rs)[..n - 1] + [line];
    }
  }

  lemma {:induction false} StripTerminated(line: string)
    requires Clean(line)
    ensures Strip(line + "\n") == line
  {
    var s := line + "\n";
    assert s[0] == line[0];
    assert SkipSpace(s, 0) == 0;
    assert s[|line|] == '\n' && s[|line| - 1] == line[|line| - 1];
    assert DropSpace(s, 0, |line|) == |line|;
  }

  // ---- Records survive writing and reading ------------------------------------

  ghost predicate Good(dec: Decode, line: string) {
    Strip(line) != "" && dec(Strip(line)).Some?
  }

  /** Every line of the file is a record. */
  ghost predicate AllGood(dec: Decode, text: string) {
    Ended(text) && forall i | 0 <= i < |ReadLines(text)| :: Good(dec, ReadLines(text)[i])
  }

  lemma {:induction false} LoadGood(dec: Decode, lines: seq<string>, n: nat)
    requires n <= |lines| && forall i | 0 <= i < |lines| :: Good(dec, lines[i])
    ensures |LoadUpTo(dec, lines, n)| == n
    ensures forall i | 0 <= i < n :: Some(LoadUpTo(dec, lines, n)[i]) == dec(Strip(lines[i]))
  {
    hide Strip;
    if n > 0 {
      LoadGood(dec, lines, n - 1);
    }
  }

  /** What a file loads, line by line: `at` are the lines that are records once stripped, in order, and
      what is loaded is their decodings. A blank or corrupt line loads as nothing. */
  lemma {:induction false} LoadedExactly(dec: Decode, lines: seq<string>, n: nat) returns (at: seq<nat>)
    requires n <= |lines|
    ensures LoadedFrom(dec, lines, n, at, LoadUpTo(dec, lines, n))
  {
    hide Strip, LoadedFrom;
    if n == 0 {
      at := [];
      NothingLoaded(dec, lines);
    } else {
      at := LoadedExactly(dec, lines, n - 1);
      OneMoreLine(dec, lines, n - 1, at, LoadUpTo(dec, lines, n - 1));
      if Good(dec, lines[n - 1]) {
        at := at + [n - 1];
      }
    }
  }

  /** `rs` are the decodings of the lines `at`, which are the good ones of the first `n`, in order. */
  ghost predicate LoadedFrom(dec: Decode, lines: seq<string>, n: nat, at: seq<nat>, rs: seq<Record>)
    requires n <= |lines|
  {
    && |at| == |rs| && (forall j, k | 0 <= j < k < |at| :: at[j] < at[k])
    && (forall j | 0 <= j < |at| :: at[j] < n && Some(rs[j]) == dec(Strip(lines[at[j]])))
    && forall i: nat | i < n :: i in at <==> Good(dec, lines[i])
  }

  lemma {:induction false} NothingLoaded(dec: Decode, lines: seq<string>)
    ensures LoadedFrom(dec, lines, 0, [], [])
  {
  }

  lemma {:induction false} OneMoreLine(dec: Decode, lines: seq<string>, n: nat, at: seq<nat>, rs: seq<Record>)
    requires n < |lines| && LoadedFrom(dec, lines, n, at, rs)
    ensures Good(dec, lines[n]) ==> LoadedFrom(dec, lines, n + 1, at + [n], rs + [dec(Strip(lines[n])).value])
    ensures !Good(dec, lines[n]) ==> LoadedFrom(dec, lines, n + 1, at, rs)
  {
    hide Strip;
    if Good(dec, lines[n]) {
      hide Good;
      var at' := at + [n];
      assert at'[|at|] == n;
      assert forall i: nat | i < n :: i in at' <==> i in at;
    }
  }

  predicate AllSpace(s: string) {
    forall i | 0 <= i < |s| :: Space(s[i])
  }

  lemma {:induction false} SkippedIsSpace(s: string, i: nat)
    requires i <= |s|
    ensures AllSpace(s[i..SkipSpace(s, i)]) && (SkipSpace(s, i) < |s| ==> !Space(s[SkipSpace(s, i)]))
    decreases |s| - i
  {
    if i < |s| && Space(s[i]) {
      SkippedIsSpace(s, i + 1);
      assert s[i..SkipSpace(s, i)] == [s[i]] + s[i + 1..SkipSpace(s, i + 1)];
    }
  }

  lemma {:induction false} DroppedIsSpace(s: string, lo: nat, hi: nat)
    requires lo <= hi <= |s|
    ensures AllSpace(s[DropSpace(s, lo, hi)..hi])
    ensures DropSpace(s, lo, hi) > lo ==> !Space(s[DropSpace(s, lo, hi) - 1])
  {
    if lo < hi && Space(s[hi - 1]) {
      DroppedIsSpace(s, lo, hi - 1);
      assert s[DropSpace(s, lo, hi)..hi] == s[DropSpace(s, lo, hi - 1)..hi - 1] + [s[hi - 1]];
    }
  }

  /** Stripping takes off the space around a text and nothing else. */
  lemma {:induction false} StripMeans(s: string) returns (before: string, after: string)
    ensures s == before + Strip(s) + after && AllSpace(before) && AllSpace(after)
    ensures Strip(s) != "" ==> !Space(Strip(s)[0]) && !Space(Strip(s)[|Strip(s)| - 1])
  {
    var lo := SkipSpace(s, 0);
    var hi := DropSpace(s, lo, |s|);
    SkippedIsSpace(s, 0);
    DroppedIsSpace(s, lo, |s|);
    hide AllSpace, Space, SkipSpace, DropSpace;
    before, after := s[0..lo], s[hi..|s|];
    assert before == s[..lo] && after == s[hi..];
  }

  /** The lines read are the text, cut after every newline. */
  lemma {:induction false} LinesAreTheText(text: string, n: nat)
    requires n <= |text|
    ensures Joined(Scan(text, n).lines, |Scan(text, n).lines|) + Scan(text, n).rest == text[..n]
  {
    if n > 0 {
      LinesAreTheText(text, n - 1);
      var was, now := Scan(text, n - 1), Scan(text, n);
      assert text[..n] == text[..n - 1] + [text[n - 1]];
      if text[n - 1] == '\n' {
        JoinedPrefix(was.lines, now.lines, |was.lines|);
      }
    }
  }

  lemma {:induction false} JoinedPrefix(a: seq<string>, b: seq<string>, n: nat)
    requires n <= |a| && n <= |b| && forall i | 0 <= i < n :: a[i] == b[i]
    ensures Joined(a, n) == Joined(b, n)
  {
    if n > 0 {
      JoinedPrefix(a, b, n - 1);
    }
  }

  /** `readlines`: the lines put together are the text, and every one but the last ends in its only
      newline. */
  lemma {:induction false} ReadLinesMeans(text: string)
    ensures var lines := ReadLines(text);
            && Joined(lines, |lines|) == text
            && (forall i | 0 <= i < |lines| - 1 :: Terminated(lines[i]))
            && (lines != [] ==>
                  Terminated(lines[|lines| - 1]) || (lines[|lines| - 1] != "" && '\n' !in lines[|lines| - 1]))
  {
    hide Scan;
    var sp := Scan(text, |text|);
    LinesAreTheText(text, |text|);
    ScannedLinesAreTerminated(text, |text|);
    assert text[..|text|] == text;
    JoinedPrefix(sp.lines, ReadLines(text), |sp.lines|);
  }

  lemma {:induction false} LoadPrefix(dec: Decode, a: seq<string>, b: seq<string>, n: nat)
    requires n <= |a| && n <= |b| && forall i | 0 <= i < n :: a[i] == b[i]
    ensures LoadUpTo(dec, a, n) == LoadUpTo(dec, b, n)
  {
    hide Strip;
    if n > 0 {
      LoadPrefix(dec, a, b, n - 1);
    }
  }

  /** Lines load one after the other. */
  lemma {:induction false} LoadSplit(dec: Decode, lines: seq<string>, tail: seq<string>, cut: nat, n: nat)
    requires cut + n <= |lines| && n <= |tail| && forall i | 0 <= i < n :: tail[i] == lines[cut + i]
    ensures LoadUpTo(dec, lines, cut + n) == LoadUpTo(dec, lines, cut) + LoadUpTo(dec, tail, n)
  {
    hide Strip;
    if n > 0 {
      LoadSplit(dec, lines, tail, cut, n - 1);
    }
  }

  lemma {:induction false} LoadAppended(enc: Encode, dec: Decode, was: seq<string>, rs: seq<Record>)
    requires Codec(enc, dec)
    ensures var lines := was + LinesOf(enc, rs);
            LoadUpTo(dec, lines, |lines|) == LoadUpTo(dec, was, |was|) + rs
  {
    hide Strip, Codec, Good, LoadUpTo, LinesOf;
    var added := LinesOf(enc, rs);
    LoadPrefix(dec, was + added, was, |was|);
    LoadSplit(dec, was + added, added, |was|, |added|);
    SameCount(enc, rs);
    EncodedAreGood(enc, dec, rs);
    LoadGood(dec, added, |added|);
    assert LoadUpTo(dec, added, |added|) == rs;
  }

  /** `load` after `append`, for a file of any complete lines: the old records followed by the new
      ones, less those in the oldest lines that the bound drops. Blank and corrupt lines load as
      nothing, but count against the bound. */
  lemma {:induction false} LoadAfterAppendOfAnyLines(enc: Encode, dec: Decode, text: string, rs: seq<Record>,
          bound: int)
    requires Codec(enc, dec) && Ended(text)
    ensures var lines := ReadLines(text) + LinesOf(enc, rs);
            var dropped := LoadUpTo(dec, lines, Overflow(|lines|, bound));
            LoadText(dec, text) + rs == dropped + LoadText(dec, AppendText(enc, text, rs, bound))
  {
    hide Scan, Strip, Codec, Overflow, ReadLines, AppendText, Good, LoadUpTo, LinesOf;
    var lines := ReadLines(text) + LinesOf(enc, rs);
    var cut := Overflow(|lines|, bound);
    LinesAfterAppend(enc, dec, text, rs, bound);
    LoadAppended(enc, dec, ReadLines(text), rs);
    LoadSplit(dec, lines, lines[cut..], cut, |lines| - cut);
  }

  /** For a file of records only, that is the last `bound` of the old records and the new ones, and
      the file is again all records. */
  lemma {:induction false} LoadAfterAppend(enc: Encode, dec: Decode, text: string, rs: seq<Record>, bound: int)
    requires Codec(enc, dec) && AllGood(dec, text)
    ensures var all := LoadText(dec, text) + rs;
            LoadText(dec, AppendText(enc, text, rs, bound)) == all[Overflow(|all|, bound)..]
    ensures AllGood(dec, AppendText(enc, text, rs, bound))
  {
    hide Scan, Strip, Codec, Overflow, ReadLines, AppendText, Good, LoadUpTo;
    var was, added := ReadLines(text), LinesOf(enc, rs);
    LinesAfterAppend(enc, dec, text, rs, bound);
    EncodedAreGood(enc, dec, rs);
    LoadGood(dec, was, |was|);
    LoadCut(dec, was, added, LoadText(dec, text), rs, Overflow(|was + added|, bound));
  }

  lemma {:induction false} LinesAfterAppend(enc: Encode, dec: Decode, text: string, rs: seq<Record>, bound: int)
    requires Codec(enc, dec) && Ended(text)
    ensures var lines := ReadLines(text) + LinesOf(enc, rs);
            ReadLines(AppendText(enc, text, rs, bound)) == lines[Overflow(|lines|, bound)..]
    ensures Ended(AppendText(enc, text, rs, bound))
  {
    hide Scan, Codec, Overflow, ReadLines, Ended, TrimText;
    ReadWhatWasEncoded(enc, dec, text, rs, |rs|);
    assert LinesOf(enc, rs)[..|rs|] == LinesOf(enc, rs);
    TrimReads(text + Encoded(enc, rs, |rs|), bound);
  }

  /** Lines that read as `a` and `b`, less the oldest `cut`, read as the same cut of `a + b`. */
  lemma {:induction false} LoadCut(dec: Decode, was: seq<string>, added: seq<string>, a: seq<Record>,
          b: seq<Record>, cut: nat)
    requires |was| == |a| && |added| == |b| && cut <= |was + added|
    requires forall i | 0 <= i < |was| :: Good(dec, was[i]) && dec(Strip(was[i])) == Some(a[i])
    requires forall i | 0 <= i < |added| :: Good(dec, added[i]) && dec(Strip(added[i])) == Some(b[i])
    ensures var kept := (was + added)[cut..];
            LoadUpTo(dec, kept, |kept|) == (a + b)[cut..] && forall i | 0 <= i < |kept| :: Good(dec, kept[i])
  {
    hide Strip, Good, LoadUpTo;
    var kept := (was + added)[cut..];
    forall i | 0 <= i < |kept| ensures Good(dec, kept[i]) && dec(Strip(kept[i])) == Some((a + b)[cut..][i]) {
      assert kept[i] == if cut + i < |was| then was[cut + i] else added[cut + i - |was|];
    }
    LoadGood(dec, kept, |kept|);
    assert |LoadUpTo(dec, kept, |kept|)| == |(a + b)[cut..]|;
  }

  lemma {:induction false} EncodedAreGood(enc: Encode, dec: Decode, rs: seq<Record>)
    requires Codec(enc, dec)
    ensures forall i | 0 <= i < |rs| :: Good(dec, LinesOf(enc, rs)[i]) && dec(Strip(LinesOf(enc, rs)[i])) == Some(rs[i])
  {
    hide Strip;
    forall i | 0 <= i < |rs| ensures Good(dec, LinesOf(enc, rs)[i]) && dec(Strip(LinesOf(enc, rs)[i])) == Some(rs[i]) {
      StripTerminated(enc(rs[i]));
    }
  }

  /** Trimming keeps exactly the lines that Python's slice keeps. */
  lemma {:induction false} TrimReads(text: string, bound: int)
    requires Ended(text)
    ensures var lines := ReadLines(text);
            Ended(TrimText(text, bound)) && ReadLines(TrimText(text, bound)) == lines[Overflow(|lines|, bound)..]
  {
    hide Scan;
    var lines := ReadLines(text);
    var kept := lines[Overflow(|lines|, bound)..];
    ScannedLinesAreTerminated(text, |text|);
    ReadWhatWasJoined(kept, |kept|);
    assert kept[..|kept|] == kept;
    assert lines[0..] == lines;
  }

  lemma {:induction false} LoadsNoMoreThanLines(dec: Decode, lines: seq<string>, n: nat)
    requires n <= |lines|
    ensures |LoadUpTo(dec, lines, n)| <= n
  {
    hide Strip;
    if n > 0 {
      LoadsNoMoreThanLines(dec, lines, n - 1);
    }
  }

  /** After an append of anything, to a file of any complete lines, the file and what it loads stay
      within the bound exactly when the bound is positive. */
  lemma {:induction false} BoundHoldsExactlyWhenPositive(enc: Encode, dec: Decode, text: string, rs: seq<Record>,
          bound: int)
    requires Codec(enc, dec) && Ended(text) && rs != []
    ensures |ReadLines(AppendText(enc, text, rs, bound))| <= bound <==> bound >= 1
    ensures |LoadText(dec, AppendText(enc, text, rs, bound))| <= bound <==> bound >= 1
  {
    hide ReadLines, AppendText, Ended, Codec, LoadUpTo, LinesOf;
    var after := AppendText(enc, text, rs, bound);
    var lines := ReadLines(text) + LinesOf(enc, rs);
    SameCount(enc, rs);
    LinesAfterAppend(enc, dec, text, rs, bound);
    LoadsNoMoreThanLines(dec, ReadLines(after), |ReadLines(after)|);
    if bound == 0 {
      LoadAfterAppendOfAnyLines(enc, dec, text, rs, bound);
      LoadsNoMoreThanLines(dec, lines, 0);
    }
  }

  lemma {:induction false} SameCount(enc: Encode, rs: seq<Record>)
    ensures |LinesOf(enc, rs)| == |rs|
  {
  }

  /** `load` after `replace` gives exactly the records kept. */
  lemma {:induction false} LoadAfterReplace(enc: Encode, dec: Decode, rs: seq<Record>)
    requires Codec(enc, dec)
    ensures LoadText(dec, Encoded(enc, rs, |rs|)) == rs && AllGood(dec, Encoded(enc, rs, |rs|))
  {
    hide Strip, Codec;
    var lines := LinesOf(enc, rs);
    assert "" + Encoded(enc, rs, |rs|) == Encoded(enc, rs, |rs|);
    ReadWhatWasEncoded(enc, dec, "", rs, |rs|);
    assert ReadLines("") == [] && lines[..|rs|] == lines && [] + lines == lines;
    EncodedAreGood(enc, dec, rs);
    LoadGood(dec, lines, |lines|);
    assert LoadUpTo(dec, lines, |lines|) == rs;
  }

  // ---- The plant bridge's trim --------------------------------------------------

  function Chomp(line: string): string {
    if |line| > 0 && line[|line| - 1] == '\n' then line[..|line| - 1] else line
  }

  /** Lines put back together with newlines between them and one after the last. */
  function Rejoined(lines: seq<string>, n: nat): string
    requires n <= |lines|
  {
    if n == 0 then "" else Rejoined(lines, n - 1) + Chomp(lines[n - 1]) + "\n"
  }

  function PlantTrimText(text: string, bound: int): string {
    var lines := ReadLines(text);
    var kept := lines[Overflow(|lines|, bound)..];
    if |lines| <= bound then text else if kept == [] then "\n" else Rejoined(kept, |kept|)
  }

  /** The bridge's own trim loads back the same records, though a negative bound leaves its file
      with a blank line instead of empty. */
  lemma {:induction false} PlantTrimLoadsTheSame(dec: Decode, text: string, bound: int)
    requires Ended(text)
    ensures LoadText(dec, PlantTrimText(text, bound)) == LoadText(dec, TrimText(text, bound))
  {
    hide Strip, Overflow;
    var lines := ReadLines(text);
    var kept := lines[Overflow(|lines|, bound)..];
    ScannedLinesAreTerminated(text, |text|);
    if kept == [] {
      BlankLoadsNothing(dec);
    } else {
      RejoinedIsJoined(kept, |kept|);
    }
  }

  lemma {:induction false} BlankLoadsNothing(dec: Decode)
    ensures LoadText(dec, "\n") == [] == LoadText(dec, "")
  {
    assert Scan("\n", 0) == Split([], "");
    assert Scan("\n", 1).lines == [[] + "\n"];
    assert [] + "\n" == "\n";
    assert ReadLines("\n") == ["\n"];
    assert SkipSpace("\n", 0) == 1;
    assert Strip("\n") == "";
    assert LoadUpTo(dec, ["\n"], 0) == [];
  }

  lemma {:induction false} RejoinedIsJoined(lines: seq<string>, n: nat)
    requires n <= |lines| && forall i | 0 <= i < |lines| :: Terminated(lines[i])
    ensures Rejoined(lines, n) == Joined(lines, n)
  {
    if n > 0 {
      RejoinedIsJoined(lines, n - 1);
      var line := lines[n - 1];
      assert Chomp(line) + "\n" == line;
      assert Rejoined(lines, n) == Joined(lines, n - 1) + (Chomp(line) + "\n");
    }
  }

  // ---- The object -------------------------------------------------------------

  /** `TelemetrySpool`. A spool with nothing in it is a file of no bytes, or no file yet. */
  class TelemetrySpool {
    var file: Option<string>
    const bound: int
    const enc: Encode
    const dec: Decode

    constructor (file: Option<string>, bound: int, enc: Encode, dec: Decode)
      ensures this.file == file && this.bound == bound && this.enc == enc && this.dec == dec
    {
      this.file, this.bound, this.enc, this.dec := file, bound, enc, dec;
    }

    method Append(rs: seq<Record>)
      modifies this
      ensures rs == [] ==> file == old(file)
      ensures rs != [] && old(file).Some? ==> file == Some(AppendText(enc, old(file).value, rs, bound))
      ensures rs != [] && old(file).None? ==> file == Some(AppendText(enc, "", rs, bound))
    {
      hide ReadLines, Overflow, TrimText;
      if rs == [] {
        return;
      }
      var was := if file.Some? then file.value else "";
      var text := was;
      for i := 0 to |rs|
        invariant text == was + Encoded(enc, rs, i)
      {
        text := text + enc(rs[i]) + "\n";
      }
      file := Some(text);
      Trim();
    }

    method Trim()
      requires file.Some?
      modifies this
      ensures file == Some(TrimText(old(file.value), bound))
    {
      var lines := ReadLines(file.value);
      if |lines| <= bound {
        return;
      }
      var kept := lines[Overflow(|lines|, bound)..];
      var text := "";
      for i := 0 to |kept|
        invariant text == Joined(kept, i)
      {
        text := text + kept[i];
      }
      file := Some(text);
    }

    method Load() returns (rs: seq<Record>)
      ensures rs == if file.Some? then LoadText(dec, file.value) else []
    {
      rs := [];
      if file.None? {
        return;
      }
      var lines := ReadLines(file.value);
      for i := 0 to |lines|
        invariant rs == LoadUpTo(dec, lines, i)
      {
        var line := Strip(lines[i]);
        if line == "" {
          continue;
        }
        var r := dec(line);
        if r.Some? {
          rs := rs + [r.value];
        }
      }
    }

    method Replace(rs: seq<Record>)
      modifies this
      ensures file == if rs == [] && old(file).None? then None else Some(Encoded(enc, rs, |rs|))
    {
      if rs == [] {
        if file.None? {
          return;
        }
        file := Some("");
        return;
      }
      var text := "";
      for i := 0 to |rs|
        invariant text == Encoded(enc, rs, i)
      {
        text := text + enc(rs[i]) + "\n";
      }
      file := Some(text);
    }
  }
}
