/** The index loops that bound a JSON text before it is decoded. */
module Scanners {
  import opened Records
  import opened JsonText
  import opened ScanSpec
  import opened ScanTheory

  /** The first position of `c` at or after `start`, or -1. */
  method Find(text: string, c: char, start: nat) returns (at: int)
    requires start <= |text|
    ensures -1 <= at < |text|
    ensures at >= 0 ==> start <= at && text[at] == c && c !in text[start..at]
    ensures at < 0 ==> c !in text[start..]
  {
    at := start;
    while at < |text|
      invariant start <= at <= |text| && c !in text[start..at]
    {
      if text[at] == c {
        return;
      }
      at := at + 1;
    }
    at := -1;
  }

  lemma {:induction false} UnquotedNeverEnds(s: string)
    requires '"' !in s
    ensures StringEnd(s) == None
  {
    if |s| >= 2 {
      UnquotedNeverEnds(s[2..]);
    }
    if s != "" {
      UnquotedNeverEnds(s[1..]);
    }
  }

  /** Skips blanks; what follows decides whether a string was a key. */
  method SkipBlanks(text: string, start: nat) returns (following: nat)
    requires start <= |text|
    ensures start <= following <= |text|
    ensures text[following..] == SkipSpace(text[start..])
  {
    following := start;
    while following < |text| && IsSpace(text[following])
      invariant start <= following <= |text|
      invariant SkipSpace(text[start..]) == SkipSpace(text[following..])
    {
      assert text[following..][1..] == text[following + 1..];
      following := following + 1;
    }
  }

  /** The last position before `end` that holds no backslash, not looking before `index`. */
  method BeforeBackslashes(text: string, index: nat, start: nat, end: nat) returns (slash: int)
    requires index < start <= end <= |text| && text[start - 1] == '"'
    ensures TrailingRun(text[start..end]) == end - slash - 1
  {
    slash := end - 1;
    while slash >= index && text[slash] == '\\'
      invariant start - 1 <= slash < end
      invariant TrailingRun(text[start..end]) == end - slash - 1 + TrailingRun(text[start..slash + 1])
    {
      assert text[start..slash + 1][..slash - start] == text[start..slash];
      slash := slash - 1;
    }
  }

  /** The position behind the closing quote of the string that opens at `index`, or -1. The search
      goes from quote to quote and counts the backslashes before each. */
  method ClosingQuote(text: string, index: nat) returns (behind: int)
    requires index < |text| && text[index] == '"'
    ensures behind >= 0 ==> index < behind <= |text| && StringEnd(text[index + 1..]) == Some(behind - index - 1)
    ensures behind < 0 ==> StringEnd(text[index + 1..]) == None
  {
    hide StringEnd, TrailingRun;
    var start := index + 1;
    while true
      invariant index < start <= |text| && text[start - 1] == '"'
      invariant StringEnd(text[index + 1..]) == Beyond(start - index - 1, StringEnd(text[start..]))
      decreases |text| - start
    {
      var end := Find(text, '"', start);
      if end < 0 {
        UnquotedNeverEnds(text[start..]);
        return -1;
      }
      var slash := BeforeBackslashes(text, index, start, end);
      ghost var x := text[start..end];
      assert text[start..] == x + "\"" + text[end + 1..];
      QuoteCloses(x, text[end + 1..]);
      if (end - slash - 1) % 2 == 0 {
        return end + 1;
      }
      start := end + 1;
    }
  }

  /** The end of a bare token. */
  method BareEnd(scanner: Scanner, text: string, start: nat) returns (end: nat)
    requires start <= |text|
    ensures end <= |text| && end == start + BareRun(scanner, text[start..])
  {
    end := start;
    while end < |text| && !EndsBare(scanner, text[end])
      invariant start <= end <= |text|
      invariant BareRun(scanner, text[start..]) == end - start + BareRun(scanner, text[end..])
    {
      assert text[end..][1..] == text[end + 1..];
      end := end + 1;
    }
  }

  // ---------- One turn of the first scanner ----------

  lemma SkipAt(limits: Limits, text: string, i: nat, depth: int, nodes: nat)
    requires i < |text| && (IsSpace(text[i]) || text[i] == ',' || text[i] == ':')
    ensures Scan(First, limits, text[i..], depth, nodes) == Scan(First, limits, text[i + 1..], depth, nodes)
  {
    assert text[i..][1..] == text[i + 1..];
  }

  lemma BracketAt(limits: Limits, text: string, i: nat, depth: int, nodes: nat)
    requires i < |text| && text[i] in "{[}]"
    ensures Scan(First, limits, text[i..], depth, nodes) ==
            if text[i] in "}]" then Scan(First, limits, text[i + 1..], depth - 1, nodes)
            else if depth + 1 > limits.maxDepth || nodes + 1 > limits.maxNodes then Exceeded
            else Scan(First, limits, text[i + 1..], depth + 1, nodes + 1)
  {
    assert text[i..][1..] == text[i + 1..];
  }

  lemma StringAt(limits: Limits, text: string, i: nat, behind: int, depth: int, nodes: nat)
    requires i < |text| && text[i] == '"'
    requires behind >= 0 ==> i < behind <= |text| && StringEnd(text[i + 1..]) == Some(behind - i - 1)
    requires behind < 0 ==> StringEnd(text[i + 1..]) == None
    ensures Scan(First, limits, text[i..], depth, nodes) ==
            if behind < 0 then Within
            else Counted(First, limits, text[behind..], depth, if KeyFollows(text[behind..]) then nodes else nodes + 1)
  {
    hide StringEnd, KeyFollows;
    assert text[i..][1..] == text[i + 1..];
    if behind >= 0 {
      assert text[i..][1 + (behind - i - 1)..] == text[behind..];
    }
  }

  lemma OtherSpaceAt(limits: Limits, text: string, i: nat, depth: int, nodes: nat)
    requires i < |text| && !IsSpace(text[i]) && IsPatternSpace(text[i]) && text[i] !in ",:{[}]\""
    ensures Scan(First, limits, text[i..], depth, nodes) == Within
  {
  }

  lemma BareAt(limits: Limits, text: string, i: nat, end: nat, depth: int, nodes: nat)
    requires i < |text| && !IsSpace(text[i]) && !IsPatternSpace(text[i]) && text[i] !in ",:{[}]\""
    requires i < end <= |text| && end == i + 1 + BareRun(First, text[i + 1..])
    ensures Scan(First, limits, text[i..], depth, nodes) == Counted(First, limits, text[end..], depth, nodes + 1)
  {
    hide BareRun;
    assert text[i..][1..] == text[i + 1..];
    assert text[i..][1 + (end - i - 1)..] == text[end..];
  }

  /** The first scanner: the ledger's and, with its own limits, the snapshot format's. */
  method ScanLimits(text: string, limits: Limits) returns (verdict: Verdict)
    ensures verdict == Scan(First, limits, text, 0, 0)
  {
    hide Scan, StringEnd, BareRun;
    var depth, nodes, index := 0, 0, 0;
    assert text[0..] == text;
    while index < |text|
      invariant index <= |text| && nodes <= limits.maxNodes
      invariant Scan(First, limits, text, 0, 0) == Scan(First, limits, text[index..], depth, nodes)
    {
      var c := text[index];
      if IsSpace(c) || c == ',' || c == ':' {
        SkipAt(limits, text, index, depth, nodes);
        index := index + 1;
        continue;
      }
      if c == '{' || c == '[' {
        BracketAt(limits, text, index, depth, nodes);
        depth := depth + 1;
        nodes := nodes + 1;
        if depth > limits.maxDepth {
          return Exceeded;
        }
        index := index + 1;
      } else if c == '}' || c == ']' {
        BracketAt(limits, text, index, depth, nodes);
        depth := depth - 1;
        index := index + 1;
      } else if c == '"' {
        var behind := ClosingQuote(text, index);
        StringAt(limits, text, index, behind, depth, nodes);
        if behind < 0 {
          return Within;
        }
        index := behind;
        var following := SkipBlanks(text, index);
        if following == |text| || text[following] != ':' {
          nodes := nodes + 1;
        }
      } else if IsPatternSpace(c) {
        OtherSpaceAt(limits, text, index, depth, nodes);
        return Within;
      } else {
        var end := BareEnd(First, text, index + 1);
        BareAt(limits, text, index, end, depth, nodes);
        index := end;
        nodes := nodes + 1;
      }
      if nodes > limits.maxNodes {
        return Exceeded;
      }
    }
    NothingLeft(limits, depth, nodes);
    assert text[index..] == "";
    return Within;
  }

  lemma NothingLeft(limits: Limits, depth: int, nodes: nat)
    ensures Scan(First, limits, "", depth, nodes) == Within
  {
  }

  /** The second scanner walks every string forward, an escape at a time. */
  method Preflight(text: string, limits: Limits) returns (verdict: Verdict)
    ensures verdict == Scan(Second, limits, text, 0, 0)
  {
    var depth, nodes, i := 0, 0, 0;
    while i < |text|
      invariant i <= |text| && nodes <= limits.maxNodes
      invariant Scan(Second, limits, text, 0, 0) == Scan(Second, limits, text[i..], depth, nodes)
    {
      var c := text[i];
      assert text[i..][1..] == text[i + 1..];
      if c == '"' {
        ghost var opening := i;
        ghost var closed;
        i, closed := ForwardString(text, i + 1);
        if i > |text| {
          return Fault;
        }
        assert closed ==> text[opening..][1 + (i - opening - 1)..] == text[i..];
        var j := SkipBlanks(text, i);
        if j == |text| || text[j] != ':' {
          nodes := nodes + 1;
        }
        if nodes > limits.maxNodes {
          return Exceeded;
        }
        continue;
      }
      if c == '{' || c == '[' {
        depth := depth + 1;
        nodes := nodes + 1;
        if depth > limits.maxDepth {
          return Exceeded;
        }
      } else if c == '}' || c == ']' {
        depth := depth - 1;
      } else if IsDigit(c) || c in "-tfn" {
        nodes := nodes + 1;
        ghost var start := i;
        var end := BareEnd(Second, text, i + 1);
        assert text[start..][1 + (end - start - 1)..] == text[end..];
        i := end - 1;
      }
      if nodes > limits.maxNodes {
        return Exceeded;
      }
      i := i + 1;
    }
    return Within;
  }

  /** Reads on from behind an opening quote. A text that ends within an escape puts the index
      beyond the text. */
  method ForwardString(text: string, start: nat) returns (i: nat, ghost closed: bool)
    requires start <= |text|
    ensures start <= i <= |text| + 1
    ensures closed ==> i <= |text| && StringEnd(text[start..]) == Some(i - start)
    ensures !closed ==> i >= |text| && StringEnd(text[start..]) == None
    ensures !closed ==> (i > |text| <==> DanglingEscape(text[start..]))
  {
    i, closed := start, false;
    while i < |text|
      invariant start <= i <= |text| + 1
      invariant i <= |text| ==> StringEnd(text[start..]) == Beyond(i - start, StringEnd(text[i..]))
      invariant i <= |text| ==> (DanglingEscape(text[start..]) <==> DanglingEscape(text[i..]))
      invariant i > |text| ==> StringEnd(text[start..]) == None && DanglingEscape(text[start..])
    {
      assert text[i..][1..] == text[i + 1..];
      if text[i] == '\\' {
        if i + 2 <= |text| {
          assert text[i..][2..] == text[i + 2..];
        }
        i := i + 2;
      } else if text[i] == '"' {
        i, closed := i + 1, true;
        return;
      } else {
        i := i + 1;
      }
    }
  }

  /** The two scanners give the same verdict on every JSON text, and it is the verdict of the
      recursive measures: containers too deep or values too many. */
  method ScannersAgree(text: string, limits: Limits, ghost d: JsonDocument) returns (first: Verdict, second: Verdict)
    requires DocumentOk(d) && text == DocumentText(d)
    ensures first == second == if Exceeds(limits, d.value) then Exceeded else Within
  {
    ScanDecides(First, limits, d);
    ScanDecides(Second, limits, d);
    first := ScanLimits(text, limits);
    second := Preflight(text, limits);
  }

  // ---------- When the second scanner runs off the text ----------

  /** The second scanner faults exactly on the texts that dangle, unless a limit stops it before. */
  lemma {:induction false} FaultIsDangling(limits: Limits, s: string, depth: int, nodes: nat)
    ensures Scan(Second, limits, s, depth, nodes) == Fault <==>
            Dangles(s) && Scan(Second, limits, s, depth, nodes) != Exceeded
    decreases |s|
  {
    if s != "" {
      var c := s[0];
      if c == '"' {
        var end := StringEnd(s[1..]);
        if end.Some? {
          var rest := s[1 + end.value..];
          FaultIsDangling(limits, rest, depth, nodes);
          FaultIsDangling(limits, rest, depth, nodes + 1);
        }
      } else if c == '{' || c == '[' {
        FaultIsDangling(limits, s[1..], depth + 1, nodes + 1);
      } else if c == '}' || c == ']' {
        FaultIsDangling(limits, s[1..], depth - 1, nodes);
      } else if StartsBare(Second, c) {
        FaultIsDangling(limits, s[1 + BareRun(Second, s[1..])..], depth, nodes + 1);
      } else {
        FaultIsDangling(limits, s[1..], depth, nodes);
      }
    }
  }

  /** Limits as large as the text are never exceeded. */
  lemma {:induction false} LargeLimits(limits: Limits, s: string, depth: int, nodes: nat)
    requires depth + |s| <= limits.maxDepth && nodes + |s| <= limits.maxNodes
    ensures Scan(Second, limits, s, depth, nodes) != Exceeded
    decreases |s|
  {
    if s != "" {
      var c := s[0];
      if c == '"' {
        var end := StringEnd(s[1..]);
        if end.Some? {
          var rest := s[1 + end.value..];
          LargeLimits(limits, rest, depth, nodes);
          LargeLimits(limits, rest, depth, nodes + 1);
        }
      } else if c == '{' || c == '[' {
        LargeLimits(limits, s[1..], depth + 1, nodes + 1);
      } else if c == '}' || c == ']' {
        LargeLimits(limits, s[1..], depth - 1, nodes);
      } else if StartsBare(Second, c) {
        LargeLimits(limits, s[1 + BareRun(Second, s[1..])..], depth, nodes + 1);
      } else {
        LargeLimits(limits, s[1..], depth, nodes);
      }
    }
  }

  lemma {:induction false} EscapeAtEnd(s: string)
    requires DanglingEscape(s)
    ensures TrailingRun(s) % 2 == 1
    decreases |s|
  {
    hide TrailingRun;
    TrailingRunWhole(s);
    if s[0] != '\\' {
      EscapeAtEnd(s[1..]);
      TrailingRunDrop(s, 1);
    } else if |s| > 1 {
      EscapeAtEnd(s[2..]);
      TrailingRunDrop(s, 2);
      TrailingRunDrop(s, 1);
      TrailingRunWhole(s[1..]);
    }
  }

  lemma RunOfSuffix(s: string, k: nat)
    requires k <= |s| && TrailingRun(s[k..]) < |s| - k
    ensures TrailingRun(s) == TrailingRun(s[k..])
  {
    TrailingRunDrop(s, k);
  }

  /** What a caller can look at: a text that dangles ends in an odd number of backslashes. */
  lemma {:induction false} DanglingEndsOdd(s: string)
    requires Dangles(s)
    ensures TrailingRun(s) % 2 == 1 && TrailingRun(s) < |s|
    decreases |s|
  {
    hide TrailingRun;
    var c := s[0];
    if c == '"' {
      var end := StringEnd(s[1..]);
      if end.Some? {
        DanglingEndsOdd(s[1 + end.value..]);
        RunOfSuffix(s, 1 + end.value);
      } else {
        EscapeAtEnd(s[1..]);
        TrailingRunWhole(s);
        TrailingRunDrop(s, 1);
      }
    } else if StartsBare(Second, c) {
      var k := 1 + BareRun(Second, s[1..]);
      DanglingEndsOdd(s[k..]);
      RunOfSuffix(s, k);
    } else {
      DanglingEndsOdd(s[1..]);
      RunOfSuffix(s, 1);
    }
  }

  /** No JSON text dangles. */
  lemma JsonNeverDangles(d: JsonDocument)
    requires DocumentOk(d)
    ensures !Dangles(DocumentText(d))
  {
    hide Scan, Dangles;
    var s := DocumentText(d);
    var limits := Limits(|s|, |s|);
    ScanDecides(Second, limits, d);
    LargeLimits(limits, s, 0, 0);
    FaultIsDangling(limits, s, 0, 0);
  }

  /** `_preflight` runs off the text exactly on texts that dangle and keep the limits up to there; every
      such text ends in an odd number of backslashes. */
  method PreflightFaults(text: string, limits: Limits) returns (verdict: Verdict)
    ensures verdict == Fault <==> Dangles(text) && verdict != Exceeded
    ensures limits.maxDepth >= |text| && limits.maxNodes >= |text| ==> (verdict == Fault <==> Dangles(text))
    ensures verdict == Fault ==> TrailingRun(text) % 2 == 1
  {
    hide Scan, Dangles, TrailingRun;
    verdict := Preflight(text, limits);
    FaultIsDangling(limits, text, 0, 0);
    if limits.maxDepth >= |text| && limits.maxNodes >= |text| {
      LargeLimits(limits, text, 0, 0);
    }
    if verdict == Fault {
      DanglingEndsOdd(text);
    }
  }

  /** On such a text, a quote followed by one backslash, the first scanner gives a verdict. */
  lemma SecondScannerFaults()
    ensures Scan(Second, LEDGER_LIMITS, "\"\\", 0, 0) == Fault
    ensures Scan(First, LEDGER_LIMITS, "\"\\", 0, 0) == Within
  {
  }
}
