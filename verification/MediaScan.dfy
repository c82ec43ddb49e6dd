/**
  The media check of `src/server/idle.c`: one pass over the lines of `pactl list sink-inputs`
  that keeps the state of the current block in a few variables, against a specification that
  first groups all lines into blocks and then judges each block.

  The code is then tied to the specification, and the specification to literal lines: what a
  stream must say to be reported or left out, and which names that are none come through.
 */
module MediaScan {
  import opened Strings

  const TAB: char := '\t'
  const NAME_KEY := "application.name = "
  const BINARY_KEY := "application.process.binary = "
  const NAME_LIMIT := 255

  const BLACKLIST: seq<string> :=
    ["speech-dispatcher", "speech-dispatcher-dummy", "sndio", "pipewire", "wireplumber", "galene"]

  // ------------------------------------------------------------------
  // Strings
  // ------------------------------------------------------------------

  predicate MatchesAt(haystack: string, needle: string, i: nat)
    requires i + |needle| <= |haystack|
  {
    forall j :: 0 <= j < |needle| ==> Lower(haystack[i + j]) == Lower(needle[j])
  }

  predicate ContainsIgnoringCase(haystack: string, needle: string) {
    exists i :: 0 <= i <= |haystack| - |needle| && MatchesAt(haystack, needle, i)
  }

  predicate Blacklisted(app: string) {
    exists k :: 0 <= k < |BLACKLIST| && ContainsIgnoringCase(app, BLACKLIST[k])
  }

  function Unindent(line: string): string {
    if line != "" && (line[0] == ' ' || line[0] == TAB) then Unindent(line[1..]) else line
  }

  function SkipQuotes(s: string): string {
    if s != "" && s[0] == '"' then SkipQuotes(s[1..]) else s
  }

  predicate IsTailChar(c: char) { c == '\n' || c == '\r' || c == '"' }

  /** Drops line ends and quotes from the end, but never the last character left. */
  function StripTail(s: string): (r: string)
    ensures |r| <= |s|
  {
    if |s| > 1 && IsTailChar(s[|s| - 1]) then StripTail(s[..|s| - 1]) else s
  }

  function Truncate(s: string): string { if |s| > NAME_LIMIT then s[..NAME_LIMIT] else s }

  function Clean(value: string): string { Truncate(StripTail(SkipQuotes(value))) }

  // ------------------------------------------------------------------
  // Lines
  // ------------------------------------------------------------------

  predicate IsHeader(line: string) {
    "Sink Input #" <= Unindent(line) || "SinkInput #" <= Unindent(line)
  }

  predicate SaysCorked(line: string) {
    SameIgnoringCase(Unindent(line), "Corked: yes\n") || SameIgnoringCase(Unindent(line), "Corked: yes\r\n")
  }

  predicate SaysMuted(line: string) {
    SameIgnoringCase(Unindent(line), "Mute: yes\n") || SameIgnoringCase(Unindent(line), "Mute: yes\r\n")
  }

  predicate OpensProperties(line: string) {
    Unindent(line) == "Properties:\n" || Unindent(line) == "Properties:\r\n"
  }

  /** The name a property line gives, or nothing. */
  function Candidate(line: string): string {
    var s := Unindent(line);
    if NAME_KEY <= s then Clean(s[|NAME_KEY|..])
    else if BINARY_KEY <= s then Clean(s[|BINARY_KEY|..])
    else ""
  }

  // ------------------------------------------------------------------
  // Specification: blocks first
  // ------------------------------------------------------------------

  /** The blocks among the first `n` lines: a header starts one, every other line belongs to
      the block before it, and lines before the first header to none. */
  function Blocks(lines: seq<string>, n: nat): seq<seq<string>>
    requires n <= |lines|
  {
    if n == 0 then []
    else
      var blocks, line := Blocks(lines, n - 1), lines[n - 1];
      if IsHeader(line) then blocks + [[]]
      else if blocks == [] then []
      else blocks[|blocks| - 1 := blocks[|blocks| - 1] + [line]]
  }

  predicate Corked(block: seq<string>) { exists k :: 0 <= k < |block| && SaysCorked(block[k]) }

  predicate Muted(block: seq<string>) { exists k :: 0 <= k < |block| && SaysMuted(block[k]) }

  predicate PropertiesBefore(block: seq<string>, n: nat)
    requires n <= |block|
  {
    exists k :: 0 <= k < n && OpensProperties(block[k])
  }

  /** A property line that gives a name. */
  predicate Names(block: seq<string>, j: nat)
    requires j < |block|
  {
    PropertiesBefore(block, j) && Candidate(block[j]) != ""
  }

  /** The name given by the first such line at or after `from`, or nothing. */
  function NameFrom(block: seq<string>, from: nat): (name: string)
    requires from <= |block|
    ensures name == "" <==> forall j :: from <= j < |block| ==> !Names(block, j)
    decreases |block| - from
  {
    if from == |block| then ""
    else if Names(block, from) then Candidate(block[from])
    else NameFrom(block, from + 1)
  }

  function Name(block: seq<string>): string { NameFrom(block, 0) }

  /** What the check is for: streams that can be heard, of programs that count. */
  predicate Reported(block: seq<string>) {
    !Corked(block) && !Muted(block) && Name(block) != "" && !Blacklisted(Name(block))
  }

  /** The names of the reported blocks among the first `n`, in order. */
  function Report(blocks: seq<seq<string>>, n: nat): seq<string>
    requires n <= |blocks|
  {
    if n == 0 then []
    else if Reported(blocks[n - 1]) then Report(blocks, n - 1) + [Name(blocks[n - 1])]
    else Report(blocks, n - 1)
  }

  function AllBlocks(lines: seq<string>): seq<seq<string>> { Blocks(lines, |lines|) }

  function ReportAll(lines: seq<string>): seq<string> {
    var blocks := AllBlocks(lines);
    Report(blocks, |blocks|)
  }

  // ------------------------------------------------------------------
  // One more line
  // ------------------------------------------------------------------

  lemma {:induction false} ReportOfPrefix(a: seq<seq<string>>, b: seq<seq<string>>, n: nat)
    requires n <= |a| && n <= |b| && forall k :: 0 <= k < n ==> a[k] == b[k]
    ensures Report(a, n) == Report(b, n)
  {
    if n > 0 {
      ReportOfPrefix(a, b, n - 1);
    }
  }

  lemma PropertiesSnoc(block: seq<string>, line: string, n: nat)
    requires n <= |block|
    ensures PropertiesBefore(block + [line], n) == PropertiesBefore(block, n)
  {
    assert forall k :: 0 <= k < n ==> (block + [line])[k] == block[k];
  }

  lemma {:induction false} NameSnoc(block: seq<string>, line: string, from: nat)
    requires from <= |block|
    ensures NameFrom(block + [line], from) ==
            if NameFrom(block, from) != "" then NameFrom(block, from)
            else if PropertiesBefore(block, |block|) then Candidate(line) else ""
    decreases |block| - from
  {
    var longer := block + [line];
    if from == |block| {
      assert longer[from] == line;
      PropertiesSnoc(block, line, from);
      assert NameFrom(longer, from + 1) == "";
    } else {
      assert longer[from] == block[from];
      PropertiesSnoc(block, line, from);
      NameSnoc(block, line, from + 1);
    }
  }

  lemma FlagsSnoc(block: seq<string>, line: string)
    ensures Corked(block + [line]) == (Corked(block) || SaysCorked(line))
    ensures Muted(block + [line]) == (Muted(block) || SaysMuted(line))
    ensures PropertiesBefore(block + [line], |block| + 1) == (PropertiesBefore(block, |block|) || OpensProperties(line))
  {
    var longer := block + [line];
    assert longer[|block|] == line && forall k :: 0 <= k < |block| ==> longer[k] == block[k];
  }

  // ------------------------------------------------------------------
  // The code
  // ------------------------------------------------------------------

  method SkipBlanks(line: string) returns (trimmed: string)
    ensures trimmed == Unindent(line)
  {
    var i := 0;
    while i < |line| && (line[i] == ' ' || line[i] == TAB)
      invariant i <= |line| && Unindent(line) == Unindent(line[i..])
    {
      i := i + 1;
    }
    return line[i..];
  }

  method StrContainsCi(haystack: string, needle: string) returns (found: bool)
    ensures found == ContainsIgnoringCase(haystack, needle)
  {
    if |needle| > |haystack| {
      return false;
    }
    for i := 0 to |haystack| - |needle| + 1
      invariant forall k :: 0 <= k < i ==> !MatchesAt(haystack, needle, k)
    {
      var match_ := true;
      var j := 0;
      while j < |needle|
        invariant j <= |needle| && match_
        invariant forall k :: 0 <= k < j ==> Lower(haystack[i + k]) == Lower(needle[k])
      {
        if Lower(haystack[i + j]) != Lower(needle[j]) {
          match_ := false;
          break;
        }
        j := j + 1;
      }
      if match_ {
        assert MatchesAt(haystack, needle, i);
        return true;
      }
    }
    return false;
  }

  method IsMediaBlacklisted(app: string) returns (listed: bool)
    ensures listed == Blacklisted(app)
  {
    for i := 0 to |BLACKLIST|
      invariant forall k :: 0 <= k < i ==> !ContainsIgnoringCase(app, BLACKLIST[k])
    {
      var found := StrContainsCi(app, BLACKLIST[i]);
      if found {
        return true;
      }
    }
    return false;
  }

  method CleanName(value: string) returns (name: string)
    ensures name == Clean(value)
  {
    var i := 0;
    while i < |value| && value[i] == '"'
      invariant i <= |value| && SkipQuotes(value) == SkipQuotes(value[i..])
    {
      i := i + 1;
    }
    var p := value[i..];
    var end: nat := |p|;
    assert p[..end] == p;
    while end > 1 && IsTailChar(p[end - 1])
      invariant end <= |p| && StripTail(p) == StripTail(p[..end])
    {
      assert p[..end][..end - 1] == p[..end - 1];
      end := end - 1;
    }
    name := Truncate(p[..end]);
  }

  /** The scanner's variables tell the truth about the last block. */
  ghost predicate Summarises(block: seq<string>, corked: bool, muted: bool, inProps: bool, name: string) {
    && corked == Corked(block) && muted == Muted(block)
    && inProps == PropertiesBefore(block, |block|) && name == Name(block)
  }

  lemma LineKeepsSummary(block: seq<string>, line: string, corked: bool, muted: bool, inProps: bool, name: string)
    requires Summarises(block, corked, muted, inProps, name)
    ensures Summarises(block + [line], corked || SaysCorked(line), muted || SaysMuted(line),
                       inProps || OpensProperties(line), if name == "" && inProps then Candidate(line) else name)
  {
    FlagsSnoc(block, line);
    NameSnoc(block, line, 0);
  }

  function Ended(apps: seq<string>, inBlock: bool, corked: bool, muted: bool, name: string): seq<string> {
    if inBlock && !corked && !muted && name != "" && !Blacklisted(name) then apps + [name] else apps
  }

  /** The scanner's variables after some lines that make up these blocks. */
  ghost predicate Scanned(blocks: seq<seq<string>>, apps: seq<string>, inBlock: bool, corked: bool, muted: bool,
                          inProps: bool, name: string) {
    && (inBlock <==> blocks != [])
    && (inBlock ==> Summarises(blocks[|blocks| - 1], corked, muted, inProps, name))
    && apps == if inBlock then Report(blocks, |blocks| - 1) else []
  }

  lemma EndedIsReport(blocks: seq<seq<string>>, apps: seq<string>, inBlock: bool, corked: bool, muted: bool,
                      inProps: bool, name: string)
    requires Scanned(blocks, apps, inBlock, corked, muted, inProps, name)
    ensures Ended(apps, inBlock, corked, muted, name) == Report(blocks, |blocks|)
  {
  }

  lemma HeaderScanned(lines: seq<string>, i: nat, apps: seq<string>, inBlock: bool, corked: bool, muted: bool,
                      inProps: bool, name: string)
    requires i < |lines| && IsHeader(lines[i])
    requires Scanned(Blocks(lines, i), apps, inBlock, corked, muted, inProps, name)
    ensures Scanned(Blocks(lines, i + 1), Ended(apps, inBlock, corked, muted, name), true, false, false, false, "")
  {
    var blocks, longer := Blocks(lines, i), Blocks(lines, i + 1);
    EndedIsReport(blocks, apps, inBlock, corked, muted, inProps, name);
    ReportOfPrefix(blocks, longer, |blocks|);
  }

  lemma LineScanned(lines: seq<string>, i: nat, apps: seq<string>, inBlock: bool, corked: bool, muted: bool,
                    inProps: bool, name: string)
    requires i < |lines| && !IsHeader(lines[i])
    requires Scanned(Blocks(lines, i), apps, inBlock, corked, muted, inProps, name)
    ensures Scanned(Blocks(lines, i + 1), apps, inBlock, corked || SaysCorked(lines[i]), muted || SaysMuted(lines[i]),
                    inProps || OpensProperties(lines[i]),
                    if name == "" && inProps then Candidate(lines[i]) else name)
  {
    var blocks, longer := Blocks(lines, i), Blocks(lines, i + 1);
    if inBlock {
      LineKeepsSummary(blocks[|blocks| - 1], lines[i], corked, muted, inProps, name);
      ReportOfPrefix(blocks, longer, |blocks| - 1);
    }
  }

  method EndBlock(apps: seq<string>, count: nat, inBlock: bool, corked: bool, muted: bool, name: string)
    returns (apps': seq<string>, count': nat)
    requires count == |apps|
    ensures apps' == Ended(apps, inBlock, corked, muted, name) && count' == |apps'|
  {
    apps', count' := apps, count;
    if inBlock && !corked && !muted && name != "" {
      var listed := IsMediaBlacklisted(name);
      if !listed {
        apps', count' := apps + [name], count + 1;
      }
    }
  }

  method ReadLine(line: string, corked: bool, muted: bool, inProps: bool, name: string)
    returns (corked': bool, muted': bool, inProps': bool, name': string)
    ensures corked' == (corked || SaysCorked(line)) && muted' == (muted || SaysMuted(line))
    ensures inProps' == (inProps || OpensProperties(line))
    ensures name' == if name == "" && inProps then Candidate(line) else name
  {
    corked', muted', inProps', name' := corked, muted, inProps, name;
    var trimmed := SkipBlanks(line);
    if SameIgnoringCase(trimmed, "Corked: yes\n") || SameIgnoringCase(trimmed, "Corked: yes\r\n") {
      corked' := true;
    }
    if SameIgnoringCase(trimmed, "Mute: yes\n") || SameIgnoringCase(trimmed, "Mute: yes\r\n") {
      muted' := true;
    }
    if trimmed == "Properties:\n" || trimmed == "Properties:\r\n" {
      inProps' := true;
      return;
    }
    if inProps && name == "" {
      if NAME_KEY <= trimmed {
        name' := CleanName(trimmed[|NAME_KEY|..]);
      } else if BINARY_KEY <= trimmed {
        name' := CleanName(trimmed[|BINARY_KEY|..]);
      }
    }
  }

  method MediaCheck(lines: seq<string>) returns (apps: seq<string>, count: nat)
    ensures apps == ReportAll(lines) && count == |apps|
  {
    apps, count := [], 0;
    var inBlock, corked, muted, inProps, name := false, false, false, false, "";
    for i := 0 to |lines|
      invariant count == |apps|
      invariant Scanned(Blocks(lines, i), apps, inBlock, corked, muted, inProps, name)
    {
      var trimmed := SkipBlanks(lines[i]);
      if "Sink Input #" <= trimmed || "SinkInput #" <= trimmed {
        HeaderScanned(lines, i, apps, inBlock, corked, muted, inProps, name);
        apps, count := EndBlock(apps, count, inBlock, corked, muted, name);
        inBlock, corked, muted, inProps, name := true, false, false, false, "";
        continue;
      }
      LineScanned(lines, i, apps, inBlock, corked, muted, inProps, name);
      corked, muted, inProps, name := ReadLine(lines[i], corked, muted, inProps, name);
    }
    EndedIsReport(Blocks(lines, |lines|), apps, inBlock, corked, muted, inProps, name);
    apps, count := EndBlock(apps, count, inBlock, corked, muted, name);
  }

  // ------------------------------------------------------------------
  // One more stream
  // ------------------------------------------------------------------

  /** What the scan looks at is what follows the blanks at the front of a line. */
  lemma {:induction false} UnindentIsIff(indent: string, text: string)
    requires forall k :: 0 <= k < |indent| ==> IsBlank(indent[k])
    ensures Unindent(indent + text) == text <==> text == "" || !IsBlank(text[0])
  {
    if indent == "" {
      assert indent + text == text;
      UnindentShorter(text);
    } else {
      assert (indent + text)[1..] == indent[1..] + text;
      UnindentIsIff(indent[1..], text);
    }
  }

  lemma {:induction false} UnindentShorter(line: string)
    ensures |Unindent(line)| <= |line| && (line != "" && IsBlank(line[0]) ==> |Unindent(line)| < |line|)
  {
    if line != "" {
      UnindentShorter(line[1..]);
    }
  }

  lemma {:induction false} BlocksOfPrefix(a: seq<string>, b: seq<string>, n: nat)
    requires n <= |a| && n <= |b| && forall k :: 0 <= k < n ==> a[k] == b[k]
    ensures Blocks(a, n) == Blocks(b, n)
  {
    if n > 0 {
      BlocksOfPrefix(a, b, n - 1);
    }
  }

  lemma BlocksSnoc(lines: seq<string>, line: string)
    ensures var blocks := AllBlocks(lines);
            AllBlocks(lines + [line]) ==
            if IsHeader(line) then blocks + [[]]
            else if blocks == [] then []
            else blocks[|blocks| - 1 := blocks[|blocks| - 1] + [line]]
  {
    BlocksOfPrefix(lines, lines + [line], |lines|);
  }

  predicate NoHeaders(block: seq<string>) { forall k :: 0 <= k < |block| ==> !IsHeader(block[k]) }

  /** Lines before the first header report nothing. */
  lemma {:induction false} NothingBeforeHeaders(lines: seq<string>, n: nat)
    requires n <= |lines| && NoHeaders(lines)
    ensures Blocks(lines, n) == []
  {
    if n > 0 {
      NothingBeforeHeaders(lines, n - 1);
    }
  }

  lemma {:induction false} StreamIsOneBlock(before: seq<string>, header: string, block: seq<string>)
    requires IsHeader(header) && NoHeaders(block)
    ensures AllBlocks(before + [header] + block) == AllBlocks(before) + [block]
    decreases |block|
  {
    var blocks := AllBlocks(before);
    if block == [] {
      BlocksSnoc(before, header);
      assert before + [header] + block == before + [header];
    } else {
      var last := |block| - 1;
      var init, line := block[..last], block[last];
      StreamIsOneBlock(before, header, init);
      BlocksSnoc(before + [header] + init, line);
      assert init + [line] == block && before + [header] + init + [line] == before + [header] + block;
      assert (blocks + [init])[|blocks| := block] == blocks + [block];
    }
  }

  lemma ReportSnoc(blocks: seq<seq<string>>, block: seq<string>)
    ensures Report(blocks + [block], |blocks| + 1) ==
            if Reported(block) then Report(blocks, |blocks|) + [Name(block)] else Report(blocks, |blocks|)
  {
    ReportOfPrefix(blocks, blocks + [block], |blocks|);
  }

  lemma OneMoreBlock(before: seq<string>, header: string, block: seq<string>)
    requires IsHeader(header) && NoHeaders(block)
    ensures ReportAll(before + [header] + block) ==
            if Reported(block) then ReportAll(before) + [Name(block)] else ReportAll(before)
  {
    StreamIsOneBlock(before, header, block);
    ReportSnoc(AllBlocks(before), block);
  }

  /** A header line and lines that are none. */
  predicate IsStream(header: string, block: seq<string>) {
    && ("Sink Input #" <= Unindent(header) || "SinkInput #" <= Unindent(header))
    && (forall k :: 0 <= k < |block| ==> !("Sink Input #" <= Unindent(block[k])))
    && (forall k :: 0 <= k < |block| ==> !("SinkInput #" <= Unindent(block[k])))
  }

  /** The line is this text and a line end, behind blanks and in any case. */
  predicate Says(line: string, text: string) {
    SameIgnoringCase(Unindent(line), text + "\n") || SameIgnoringCase(Unindent(line), text + "\r\n")
  }

  predicate SwitchedOff(line: string) { Says(line, "Corked: yes") || Says(line, "Mute: yes") }

  lemma OffIsCorkedOrMuted(line: string)
    ensures SwitchedOff(line) <==> SaysCorked(line) || SaysMuted(line)
  {
    assert "Corked: yes" + "\n" == "Corked: yes\n" && "Corked: yes" + "\r\n" == "Corked: yes\r\n";
    assert "Mute: yes" + "\n" == "Mute: yes\n" && "Mute: yes" + "\r\n" == "Mute: yes\r\n";
  }

  /** Main result, behind any other lines: a stream with a line `Corked: yes` or `Mute: yes`, at any
      indentation and in any case, is left out. */
  lemma OffIsLeftOut(before: seq<string>, header: string, block: seq<string>, k: nat)
    requires IsStream(header, block) && k < |block| && SwitchedOff(block[k])
    ensures ReportAll(before + [header] + block) == ReportAll(before)
  {
    OffIsCorkedOrMuted(block[k]);
    OneMoreBlock(before, header, block);
  }

  /** The line gives the name, in quotes, for one of the two keys. */
  predicate Gives(line: string, name: string) {
    exists key, end :: key in KEYS && end in LINE_ENDS && Unindent(line) == key + ("\"" + (name + ("\"" + end)))
  }

  const KEYS := ["application.name = ", "application.process.binary = "]

  const LINE_ENDS := ["\n", "\r\n"]

  predicate HasKey(line: string) { exists key :: key in KEYS && key <= Unindent(line) }

  predicate SaysProperties(line: string) { exists end :: end in LINE_ENDS && Unindent(line) == "Properties:" + end }

  /** Fits into the buffer and has neither a quote at the front nor a quote or line end at the end. */
  predicate IsOrdinary(name: string) {
    && 0 < |name| <= 255 && name[0] != '"'
    && name[|name| - 1] != '"' && name[|name| - 1] != '\n' && name[|name| - 1] != '\r'
  }

  lemma {:induction false} StripsTail(s: string, tail: string)
    requires s != "" && !IsTailChar(s[|s| - 1]) && forall k :: 0 <= k < |tail| ==> IsTailChar(tail[k])
    ensures StripTail(s + tail) == s
    decreases |tail|
  {
    var all := s + tail;
    if tail == "" {
      assert all == s;
    } else {
      var shorter := tail[..|tail| - 1];
      assert all[|all| - 1] == tail[|tail| - 1] && all[..|all| - 1] == s + shorter;
      StripsTail(s, shorter);
    }
  }

  lemma CleanOfQuoted(name: string, end: string)
    requires IsOrdinary(name) && end in LINE_ENDS
    ensures Clean("\"" + (name + ("\"" + end))) == name
  {
    var value := "\"" + (name + ("\"" + end));
    var rest := name + ("\"" + end);
    assert value[1..] == rest && rest[0] == name[0];
    assert SkipQuotes(rest) == rest;
    StripsTail(name, "\"" + end);
  }

  lemma CandidateOf(line: string, name: string)
    requires Gives(line, name) && IsOrdinary(name)
    ensures Candidate(line) == name
  {
    var key, end :| key in KEYS && end in LINE_ENDS && Unindent(line) == key + ("\"" + (name + ("\"" + end)));
    var value := "\"" + (name + ("\"" + end));
    CleanOfQuoted(name, end);
    assert (key + value)[|key|..] == value;
    assert NAME_KEY[12] == 'n' && BINARY_KEY[12] == 'p';
    assert key == BINARY_KEY ==> (key + value)[12] == 'p';
  }

  lemma NoKeyNoCandidate(line: string)
    requires !HasKey(line)
    ensures Candidate(line) == ""
  {
    assert NAME_KEY in KEYS && BINARY_KEY in KEYS by {
      assert KEYS[0] == NAME_KEY && KEYS[1] == BINARY_KEY;
    }
  }

  lemma PropertiesIff(line: string)
    ensures SaysProperties(line) <==> OpensProperties(line)
  {
    assert LINE_ENDS[0] == "\n" && LINE_ENDS[1] == "\r\n";
    assert "Properties:" + "\n" == "Properties:\n" && "Properties:" + "\r\n" == "Properties:\r\n";
  }

  predicate NoneNames(block: seq<string>, from: nat, q: nat)
    requires q <= |block|
  {
    forall j :: from <= j < q ==> !Names(block, j)
  }

  lemma NameSkips(block: seq<string>, from: nat)
    requires from < |block| && !Names(block, from)
    ensures NameFrom(block, from) == NameFrom(block, from + 1)
  {
  }

  lemma NamesHere(block: seq<string>, q: nat)
    requires q < |block| && Names(block, q)
    ensures NameFrom(block, q) == Candidate(block[q])
  {
  }

  lemma {:induction false} FirstNameCounts(block: seq<string>, from: nat, q: nat)
    requires from <= q < |block| && Names(block, q) && NoneNames(block, from, q)
    ensures NameFrom(block, from) == Candidate(block[q])
    decreases q - from
  {
    if from == q {
      NamesHere(block, q);
    } else {
      FirstNameCounts(block, from + 1, q);
      NameSkips(block, from);
    }
  }

  /** Line `p` is the first that opens the properties, line `q` the first behind it with a key. */
  predicate NamedBy(block: seq<string>, p: nat, q: nat, name: string) {
    && p < q < |block| && SaysProperties(block[p]) && Gives(block[q], name)
    && (forall k :: 0 <= k < p ==> !SaysProperties(block[k]))
    && (forall k :: p < k < q ==> !HasKey(block[k]))
  }

  lemma NameOfBlock(block: seq<string>, p: nat, q: nat, name: string)
    requires NamedBy(block, p, q, name) && IsOrdinary(name)
    ensures Name(block) == name
  {
    CandidateOf(block[q], name);
    PropertiesIff(block[p]);
    forall j | 0 <= j < q ensures !Names(block, j) {
      if j <= p {
        forall k | 0 <= k < j ensures !OpensProperties(block[k]) {
          PropertiesIff(block[k]);
        }
      } else {
        NoKeyNoCandidate(block[j]);
      }
    }
    FirstNameCounts(block, 0, q);
  }

  /** Names of programs that do not count; the longer form of the first needs no mention. */
  predicate Uninteresting(name: string) {
    || ContainsIgnoringCase(name, "speech-dispatcher") || ContainsIgnoringCase(name, "sndio")
    || ContainsIgnoringCase(name, "pipewire") || ContainsIgnoringCase(name, "wireplumber")
    || ContainsIgnoringCase(name, "galene")
  }

  lemma UninterestingIff(name: string)
    ensures Uninteresting(name) <==> Blacklisted(name)
  {
    var short, long := "speech-dispatcher", "speech-dispatcher-dummy";
    if ContainsIgnoringCase(name, long) {
      var i :| 0 <= i <= |name| - |long| && MatchesAt(name, long, i);
      assert long[..|short|] == short;
      assert forall j :: 0 <= j < |short| ==> short[j] == long[j];
      assert MatchesAt(name, short, i);
    }
    ListedNames(name);
  }

  lemma ListedNames(name: string)
    ensures Blacklisted(name) <==>
            ContainsIgnoringCase(name, "speech-dispatcher-dummy") || Uninteresting(name)
  {
    assert BLACKLIST[0] == "speech-dispatcher" && BLACKLIST[1] == "speech-dispatcher-dummy" && BLACKLIST[2] == "sndio";
    assert BLACKLIST[3] == "pipewire" && BLACKLIST[4] == "wireplumber" && BLACKLIST[5] == "galene";
  }

  /** Main result, behind any other lines: a stream that is not switched off and gives an ordinary
      name is reported under exactly this name, unless the name is one of those that do not count. */
  lemma NamedIsReported(before: seq<string>, header: string, block: seq<string>, p: nat, q: nat, name: string)
    requires IsStream(header, block) && forall k :: 0 <= k < |block| ==> !SwitchedOff(block[k])
    requires NamedBy(block, p, q, name) && IsOrdinary(name)
    ensures ReportAll(before + [header] + block) ==
            if Uninteresting(name) then ReportAll(before) else ReportAll(before) + [name]
  {
    forall k | 0 <= k < |block| ensures !SaysCorked(block[k]) && !SaysMuted(block[k]) {
      OffIsCorkedOrMuted(block[k]);
    }
    NameOfBlock(block, p, q, name);
    UninterestingIff(name);
    OneMoreBlock(before, header, block);
  }

  /** For instance, capital letters make no difference. */
  lemma ShoutedMuteIsLeftOut()
    ensures ReportAll(["Sink Input #1\n", "\tMUTE: YES\n"]) == []
  {
    var header, line := "Sink Input #1\n", "\tMUTE: YES\n";
    assert line[1..] == "MUTE: YES\n" && "MUTE: YES\n"[0] == 'M' && header[0] == 'S';
    assert Unindent(line) == "MUTE: YES\n" && Unindent(header) == header;
    assert SameIgnoringCase("MUTE: YES\n", "Mute: yes" + "\n");
    OffIsLeftOut([], header, [line], 0);
    assert [] + [header] + [line] == [header, line];
  }

  // ------------------------------------------------------------------
  // Names that are not names
  // ------------------------------------------------------------------

  lemma {:induction false} StripTailKeepsJunkIff(s: string)
    ensures StripTail(s) <= s && (s != "" ==> StripTail(s) != "")
    ensures (s != "" && IsTailChar(StripTail(s)[|StripTail(s)| - 1])) <==>
            (s != "" && forall k :: 0 <= k < |s| ==> IsTailChar(s[k]))
  {
    if |s| > 1 && IsTailChar(s[|s| - 1]) {
      StripTailKeepsJunkIff(s[..|s| - 1]);
      assert forall k :: 0 <= k < |s| - 1 ==> s[..|s| - 1][k] == s[k];
    }
  }

  /** Nothing but quotes and line ends. */
  predicate AllTail(s: string) { s != "" && forall k :: 0 <= k < |s| ==> IsTailChar(s[k]) }

  predicate EndsInTail(s: string) { s != "" && IsTailChar(s[|s| - 1]) }

  /** For every value, the name ends in a quote or a line end exactly if nothing else was left
      after the leading quotes, or if more characters remain than the buffer takes and the last
      one it takes is such a character. */
  lemma JunkNameIff(value: string)
    ensures var rest := SkipQuotes(value);
            EndsInTail(Clean(value)) <==>
            AllTail(rest) || (|StripTail(rest)| > NAME_LIMIT && IsTailChar(rest[NAME_LIMIT - 1]))
  {
    var rest := SkipQuotes(value);
    StripTailKeepsJunkIff(rest);
    var kept := StripTail(rest);
    if |kept| > NAME_LIMIT {
      assert !AllTail(rest) by {
        StripTailOfTail(rest);
      }
      assert kept[NAME_LIMIT - 1] == rest[NAME_LIMIT - 1];
    }
  }

  lemma {:induction false} StripTailOfTail(s: string)
    ensures AllTail(s) ==> |StripTail(s)| == 1
  {
    if |s| > 1 && IsTailChar(s[|s| - 1]) {
      StripTailOfTail(s[..|s| - 1]);
      assert AllTail(s) ==> AllTail(s[..|s| - 1]);
    }
  }

  const HEADER_LINE := "Sink Input #1\n"
  const PROPERTIES_LINE := "Properties:\n"
  const EMPTY_NAME_LINE := NAME_KEY + "\"\"\n"

  lemma EmptyNameIsLineEnd()
    ensures Candidate(EMPTY_NAME_LINE) == "\n"
  {
    var value := "\"\"\n";
    assert EMPTY_NAME_LINE[0] == 'a' && EMPTY_NAME_LINE[|NAME_KEY|..] == value;
    assert value[1..] == "\"\n" && value[1..][1..] == "\n";
    assert SkipQuotes("\n") == "\n" && SkipQuotes(value[1..]) == "\n" && SkipQuotes(value) == "\n";
  }

  /** So a stream with an empty application name is reported, under the name of a line end. */
  lemma EmptyNameIsReported()
    ensures ReportAll([HEADER_LINE, PROPERTIES_LINE, EMPTY_NAME_LINE]) == ["\n"]
  {
    var lines := [HEADER_LINE, PROPERTIES_LINE, EMPTY_NAME_LINE];
    var block := [PROPERTIES_LINE, EMPTY_NAME_LINE];
    EmptyNameIsLineEnd();
    assert Unindent(PROPERTIES_LINE) == PROPERTIES_LINE && Unindent(EMPTY_NAME_LINE) == EMPTY_NAME_LINE;
    assert Blocks(lines, 1) == [[]];
    assert !IsHeader(PROPERTIES_LINE) by { assert PROPERTIES_LINE[0] == 'P'; }
    assert !IsHeader(EMPTY_NAME_LINE) by { assert EMPTY_NAME_LINE[0] == 'a'; }
    var none: seq<string> := [];
    assert none + [PROPERTIES_LINE] == [PROPERTIES_LINE];
    assert Blocks(lines, 2) == [[PROPERTIES_LINE]];
    assert [PROPERTIES_LINE] + [EMPTY_NAME_LINE] == block;
    assert Blocks(lines, 3) == [block];
    assert !Names(block, 0) && OpensProperties(block[0]) && Names(block, 1);
    assert Name(block) == NameFrom(block, 1) == Candidate(block[1]);
    assert !Blacklisted("\n");
    assert Reported(block);
    assert Report([block], 1) == ["\n"] by { assert Report([block], 0) == []; }
  }
}
