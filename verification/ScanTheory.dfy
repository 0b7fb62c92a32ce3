/** On every JSON text both scanners decide by the recursive measures of the grammar. */
module ScanTheory {
  import opened Records
  import opened JsonText
  import opened ScanSpec
  import JsonReading

  // ---------- Backslash runs and the escape automaton ----------

  /** The number of backslashes that end a text. */
  function TrailingRun(x: string): (n: nat)
    ensures n <= |x|
  {
    if x == "" || x[|x| - 1] != '\\' then 0 else 1 + TrailingRun(x[..|x| - 1])
  }

  lemma {:induction false} TrailingRunDrop(x: string, k: nat)
    requires k <= |x|
    ensures TrailingRun(x[k..]) == if TrailingRun(x) <= |x| - k then TrailingRun(x) else |x| - k
    decreases |x|
  {
    if k < |x| {
      assert x[k..][..|x| - k - 1] == x[..|x| - 1][k..];
      TrailingRunDrop(x[..|x| - 1], k);
    }
  }

  lemma {:induction false} TrailingRunWhole(x: string)
    ensures TrailingRun(x) == |x| <==> forall i :: 0 <= i < |x| ==> x[i] == '\\'
  {
    if x != "" {
      TrailingRunWhole(x[..|x| - 1]);
    }
  }

  /** A quote after quote-free text closes the string exactly when the run of backslashes
      before it is even; otherwise reading goes on behind it. */
  lemma EndOf(s: string)
    requires s != ""
    ensures s[0] == '"' ==> StringEnd(s) == Some(1)
    ensures s[0] != '"' && s[0] != '\\' ==> StringEnd(s) == Beyond(1, StringEnd(s[1..]))
    ensures s[0] == '\\' && |s| >= 2 ==> StringEnd(s) == Beyond(2, StringEnd(s[2..]))
  {
  }

  lemma BeyondTwice(j: nat, k: nat, r: Option<nat>)
    ensures Beyond(j, Beyond(k, r)) == Beyond(j + k, r)
  {
  }

  lemma {:induction false} QuoteCloses(x: string, y: string)
    requires '"' !in x
    ensures StringEnd(x + "\"" + y) == if TrailingRun(x) % 2 == 0 then Some(|x| + 1) else Beyond(|x| + 1, StringEnd(y))
  {
    hide StringEnd, TrailingRun;
    var s := x + "\"" + y;
    EndOf(s);
    TrailingRunWhole(x);
    if x == "" {
      assert s[0] == '"';
    } else if x[0] != '\\' {
      assert s[1..] == x[1..] + "\"" + y;
      QuoteCloses(x[1..], y);
      TrailingRunDrop(x, 1);
      BeyondTwice(1, |x|, StringEnd(y));
    } else if |x| == 1 {
      assert s[2..] == y;
    } else {
      assert s[2..] == x[2..] + "\"" + y;
      QuoteCloses(x[2..], y);
      TrailingRunDrop(x, 2);
      TrailingRunDrop(x, 1);
      TrailingRunWhole(x[1..]);
      BeyondTwice(2, |x| - 1, StringEnd(y));
      if x[1] == '\\' && TrailingRun(x[1..]) == |x| - 1 {
        assert TrailingRun(x) == |x|;
      }
    }
  }

  /** Four characters that neither close a string nor escape are passed over. */
  lemma HexDigitsPass(s: string, tail: string)
    requires |s| == 4 && forall i :: 0 <= i < 4 ==> s[i] != '"' && s[i] != '\\'
    ensures StringEnd(s + tail) == Beyond(4, StringEnd(tail))
  {
    hide StringEnd;
    var t := s + tail;
    assert t[4..] == tail && t[1..][1..] == t[2..] && t[2..][1..] == t[3..] && t[3..][1..] == t[4..];
    EndOf(t);
    EndOf(t[1..]);
    EndOf(t[2..]);
    EndOf(t[3..]);
  }

  lemma PieceEnd(p: Piece, tail: string)
    requires PieceOk(p)
    ensures StringEnd(PieceText(p) + tail) == Beyond(|PieceText(p)|, StringEnd(tail))
  {
    hide StringEnd;
    var s := PieceText(p) + tail;
    EndOf(s);
    if p.Hex? {
      HexDigitsPass([p.a, p.b, p.c1, p.d], tail);
      assert s[2..] == [p.a, p.b, p.c1, p.d] + tail;
    } else {
      assert s[|PieceText(p)|..] == tail;
    }
  }

  lemma {:induction false} PiecesEnd(ps: seq<Piece>, rest: string)
    requires PiecesOk(ps)
    ensures StringEnd(PiecesText(ps) + "\"" + rest) == Some(|PiecesText(ps)| + 1)
  {
    if ps == [] {
      assert PiecesText(ps) + "\"" + rest == "\"" + rest;
    } else {
      hide StringEnd, PieceText;
      var tail := PiecesText(ps[1..]) + "\"" + rest;
      assert PiecesText(ps) + "\"" + rest == PieceText(ps[0]) + tail;
      PiecesEnd(ps[1..], rest);
      PieceEnd(ps[0], tail);
    }
  }

  predicate BareText(scanner: Scanner, s: string) {
    s != "" && StartsBare(scanner, s[0]) && s[0] != '"' && !IsSpace(s[0]) && s[0] !in ",:{}[]" &&
    forall i :: 0 <= i < |s| ==> !EndsBare(scanner, s[i])
  }

  lemma {:induction false} BareRunText(scanner: Scanner, s: string, rest: string)
    requires forall i :: 0 <= i < |s| ==> !EndsBare(scanner, s[i])
    requires rest == "" || EndsBare(scanner, rest[0])
    ensures BareRun(scanner, s + rest) == |s|
  {
    if s == "" {
      assert s + rest == rest;
    } else {
      assert (s + rest)[1..] == s[1..] + rest;
      BareRunText(scanner, s[1..], rest);
    }
  }

  /** What may stand behind a value: blanks, then the end or a closing or separating character. */
  predicate ValueEnds(rest: string) {
    SkipSpace(rest) == "" || SkipSpace(rest)[0] in ",]}"
  }

  /** The verdict once a value with this depth and this many nodes has been read. */
  function After(scanner: Scanner, limits: Limits, rest: string, depth: nat, nodes: nat, valueDepth: nat, valueNodes: nat): Verdict {
    if depth + valueDepth > limits.maxDepth || nodes + valueNodes > limits.maxNodes then Exceeded
    else Scan(scanner, limits, rest, depth, nodes + valueNodes)
  }

  lemma ScanBare(scanner: Scanner, limits: Limits, s: string, rest: string, depth: nat, nodes: nat)
    requires BareText(scanner, s)
    requires rest == "" || EndsBare(scanner, rest[0])
    requires depth <= limits.maxDepth && nodes <= limits.maxNodes
    ensures Scan(scanner, limits, s + rest, depth, nodes) == After(scanner, limits, rest, depth, nodes, 0, 1)
  {
    assert (s + rest)[1..] == s[1..] + rest;
    BareRunText(scanner, s[1..], rest);
    assert (s + rest)[|s|..] == rest;
  }

  lemma ScanString(scanner: Scanner, limits: Limits, ps: seq<Piece>, rest: string, depth: nat, nodes: nat)
    requires PiecesOk(ps)
    ensures Scan(scanner, limits, Quoted(ps) + rest, depth, nodes) ==
            Counted(scanner, limits, rest, depth, if KeyFollows(rest) then nodes else nodes + 1)
  {
    var s := Quoted(ps) + rest;
    assert s[1..] == PiecesText(ps) + "\"" + rest;
    PiecesEnd(ps, rest);
    assert s[1 + |PiecesText(ps)| + 1..] == rest;
  }

  lemma {:induction false} ScanSpace(scanner: Scanner, limits: Limits, blank: string, rest: string, depth: int, nodes: nat)
    requires Space(blank)
    ensures Scan(scanner, limits, blank + rest, depth, nodes) == Scan(scanner, limits, rest, depth, nodes)
  {
    if blank == "" {
      assert blank + rest == rest;
    } else {
      assert (blank + rest)[1..] == blank[1..] + rest;
      ScanSpace(scanner, limits, blank[1..], rest, depth, nodes);
    }
  }

  lemma WordIsBare(scanner: Scanner, w: Word)
    ensures BareText(scanner, WordText(w))
  {
  }

  lemma NumberIsBare(scanner: Scanner, n: Number)
    requires NumberOk(n)
    ensures BareText(scanner, NumberText(n))
  {
    JsonReading.NumberIsInteger(n);
    var s := NumberText(n);
    forall i | 0 <= i < |s|
      ensures !EndsBare(scanner, s[i])
    {
      assert IsNumberChar(s[i]);
    }
  }

  lemma ValueEndsBare(scanner: Scanner, rest: string)
    requires ValueEnds(rest)
    ensures rest == "" || EndsBare(scanner, rest[0])
    ensures !KeyFollows(rest)
  {
  }

  // ---------- The induction over the grammar ----------

  lemma {:induction false} ScanTree(scanner: Scanner, limits: Limits, t: Tree, rest: string, depth: nat, nodes: nat)
    requires Ok(t) && ValueEnds(rest)
    requires depth <= limits.maxDepth && nodes <= limits.maxNodes
    ensures Scan(scanner, limits, Text(t) + rest, depth, nodes) ==
            After(scanner, limits, rest, depth, nodes, TreeDepth(t), TreeNodes(t))
    decreases t, 1
  {
    hide Scan;
    ValueEndsBare(scanner, rest);
    match t
    case WordTree(w) =>
      WordIsBare(scanner, w);
      ScanBare(scanner, limits, WordText(w), rest, depth, nodes);
    case NumberTree(n) =>
      NumberIsBare(scanner, n);
      ScanBare(scanner, limits, NumberText(n), rest, depth, nodes);
    case StringTree(ps) =>
      ScanString(scanner, limits, ps, rest, depth, nodes);
    case ArrayTree(_, _) =>
      ScanArray(scanner, limits, t, rest, depth, nodes);
    case ObjectTree(_, _) =>
      ScanObject(scanner, limits, t, rest, depth, nodes);
  }

  lemma ScanOpening(scanner: Scanner, limits: Limits, c: char, rest: string, depth: nat, nodes: nat)
    requires c == '[' || c == '{'
    ensures Scan(scanner, limits, [c] + rest, depth, nodes) ==
            if depth + 1 > limits.maxDepth || nodes + 1 > limits.maxNodes then Exceeded
            else Scan(scanner, limits, rest, depth + 1, nodes + 1)
  {
    assert ([c] + rest)[1..] == rest;
  }

  lemma ScanClosing(scanner: Scanner, limits: Limits, c: char, rest: string, depth: int, nodes: nat)
    requires c == ']' || c == '}'
    ensures Scan(scanner, limits, [c] + rest, depth, nodes) == Scan(scanner, limits, rest, depth - 1, nodes)
  {
    assert ([c] + rest)[1..] == rest;
  }

  lemma ScanSeparator(scanner: Scanner, limits: Limits, c: char, rest: string, depth: int, nodes: nat)
    requires c == ',' || c == ':'
    ensures Scan(scanner, limits, [c] + rest, depth, nodes) == Scan(scanner, limits, rest, depth, nodes)
  {
    assert ([c] + rest)[1..] == rest;
  }

  lemma {:induction false} ScanArray(scanner: Scanner, limits: Limits, t: Tree, rest: string, depth: nat, nodes: nat)
    requires t.ArrayTree? && Ok(t)
    requires depth <= limits.maxDepth && nodes <= limits.maxNodes
    ensures Scan(scanner, limits, Text(t) + rest, depth, nodes) ==
            After(scanner, limits, rest, depth, nodes, TreeDepth(t), TreeNodes(t))
    decreases t, 0
  {
    hide Scan;
    var inner := if t.elements == [] then t.blank + ("]" + rest) else ElementsText(t.elements) + rest;
    assert Text(t) + rest == "[" + inner;
    ScanOpening(scanner, limits, '[', inner, depth, nodes);
    if depth + 1 <= limits.maxDepth && nodes + 1 <= limits.maxNodes {
      if t.elements == [] {
        ScanSpace(scanner, limits, t.blank, "]" + rest, depth + 1, nodes + 1);
        ScanClosing(scanner, limits, ']', rest, depth + 1, nodes + 1);
      } else {
        ScanElements(scanner, limits, t.elements, rest, depth, nodes + 1);
      }
    }
  }

  lemma {:induction false} ScanObject(scanner: Scanner, limits: Limits, t: Tree, rest: string, depth: nat, nodes: nat)
    requires t.ObjectTree? && Ok(t)
    requires depth <= limits.maxDepth && nodes <= limits.maxNodes
    ensures Scan(scanner, limits, Text(t) + rest, depth, nodes) ==
            After(scanner, limits, rest, depth, nodes, TreeDepth(t), TreeNodes(t))
    decreases t, 0
  {
    hide Scan;
    var inner := if t.members == [] then t.blank + ("}" + rest) else MembersText(t.members) + rest;
    assert Text(t) + rest == "{" + inner;
    ScanOpening(scanner, limits, '{', inner, depth, nodes);
    if depth + 1 <= limits.maxDepth && nodes + 1 <= limits.maxNodes {
      if t.members == [] {
        ScanSpace(scanner, limits, t.blank, "}" + rest, depth + 1, nodes + 1);
        ScanClosing(scanner, limits, '}', rest, depth + 1, nodes + 1);
      } else {
        ScanMembers(scanner, limits, t.members, rest, depth, nodes + 1);
      }
    }
  }

  lemma SpaceThenEnds(blank: string, closing: string)
    requires Space(blank) && closing != "" && closing[0] in ",]}"
    ensures ValueEnds(blank + closing)
  {
    JsonReading.SkipSpaceText(blank, closing);
  }

  /** The elements behind an opening bracket, read at one level deeper. */
  lemma {:induction false} ScanElements(scanner: Scanner, limits: Limits, es: seq<Element>, rest: string, depth: nat, nodes: nat)
    requires ElementsOk(es) && es != []
    requires depth + 1 <= limits.maxDepth && nodes <= limits.maxNodes
    ensures Scan(scanner, limits, ElementsText(es) + rest, depth + 1, nodes) ==
            if depth + 1 + ElementsDepth(es) > limits.maxDepth || nodes + ElementsNodes(es) > limits.maxNodes then Exceeded
            else Scan(scanner, limits, rest, depth, nodes + ElementsNodes(es))
    decreases es, 0
  {
    hide Scan;
    var e := es[0];
    var more := if |es| == 1 then "" else ElementsText(es[1..]) + rest;
    var closing := if |es| == 1 then "]" + rest else "," + more;
    var s := Text(e.value) + (e.after + closing);
    assert ElementsText(es) + rest == e.before + s;
    ScanSpace(scanner, limits, e.before, s, depth + 1, nodes);
    SpaceThenEnds(e.after, closing);
    ScanTree(scanner, limits, e.value, e.after + closing, depth + 1, nodes);
    var n := nodes + TreeNodes(e.value);
    ScanSpace(scanner, limits, e.after, closing, depth + 1, n);
    if |es| == 1 {
      assert es[1..] == [];
      ScanClosing(scanner, limits, ']', rest, depth + 1, n);
    } else if n <= limits.maxNodes {
      ScanSeparator(scanner, limits, ',', more, depth + 1, n);
      ScanElements(scanner, limits, es[1..], rest, depth, n);
    }
  }

  lemma MembersSplit(ms: seq<Member>, rest: string)
    requires ms != []
    ensures MembersText(ms) + rest ==
            ms[0].before + (MemberText(ms[0]) + (ms[0].after + if |ms| == 1 then "}" + rest else "," + (MembersText(ms[1..]) + rest)))
  {
    if |ms| == 1 {
      RegroupText(ms[0].before, MemberText(ms[0]), ms[0].after, "}", rest);
    } else {
      RegroupText(ms[0].before, MemberText(ms[0]), ms[0].after, "," + MembersText(ms[1..]), rest);
      Regroup3(",", MembersText(ms[1..]), rest);
    }
  }

  lemma Regroup3(a: string, b: string, c: string)
    ensures a + b + c == a + (b + c)
  {
  }

  lemma RegroupText(a: string, b: string, c: string, d: string, e: string)
    ensures a + b + c + d + e == a + (b + (c + (d + e)))
  {
    Regroup3(a + b + c, d, e);
    Regroup3(a + b, c, d + e);
    Regroup3(a, b, c + (d + e));
  }

  /** One member with the blanks around it, up to the comma or brace that follows. */
  lemma ScanMemberBlanks(scanner: Scanner, limits: Limits, m: Member, closing: string, depth: nat, nodes: nat)
    requires MembersOk([m]) && closing != "" && closing[0] in ",]}"
    requires depth <= limits.maxDepth && nodes <= limits.maxNodes
    ensures Scan(scanner, limits, m.before + (MemberText(m) + (m.after + closing)), depth, nodes) ==
            After(scanner, limits, closing, depth, nodes, TreeDepth(m.value), TreeNodes(m.value))
    decreases m, 3
  {
    hide Scan, MemberText, TreeDepth, TreeNodes;
    ScanSpace(scanner, limits, m.before, MemberText(m) + (m.after + closing), depth, nodes);
    SpaceThenEnds(m.after, closing);
    ScanMember(scanner, limits, m, m.after + closing, depth, nodes);
    ScanSpace(scanner, limits, m.after, closing, depth, nodes + TreeNodes(m.value));
  }

  lemma AfterMeans(scanner: Scanner, limits: Limits, rest: string, depth: nat, nodes: nat, valueDepth: nat, valueNodes: nat)
    ensures After(scanner, limits, rest, depth, nodes, valueDepth, valueNodes) ==
            if depth + valueDepth > limits.maxDepth || nodes + valueNodes > limits.maxNodes then Exceeded
            else Scan(scanner, limits, rest, depth, nodes + valueNodes)
  {
    hide Scan;
  }

  lemma FirstMember(ms: seq<Member>)
    requires ms != [] && MembersOk(ms)
    ensures MembersOk([ms[0]]) && (|ms| > 1 ==> MembersOk(ms[1..]))
    ensures MembersNodes(ms) == TreeNodes(ms[0].value) + if |ms| == 1 then 0 else MembersNodes(ms[1..])
    ensures if |ms| == 1 then MembersDepth(ms) == TreeDepth(ms[0].value)
            else TreeDepth(ms[0].value) <= MembersDepth(ms) && MembersDepth(ms[1..]) <= MembersDepth(ms)
                 && (MembersDepth(ms) == TreeDepth(ms[0].value) || MembersDepth(ms) == MembersDepth(ms[1..]))
  {
    hide TreeDepth, TreeNodes, Ok;
    if |ms| == 1 {
      assert ms[1..] == [];
    }
  }

  lemma {:induction false} ScanMembers(scanner: Scanner, limits: Limits, ms: seq<Member>, rest: string, depth: nat, nodes: nat)
    requires MembersOk(ms) && ms != []
    requires depth + 1 <= limits.maxDepth && nodes <= limits.maxNodes
    ensures Scan(scanner, limits, MembersText(ms) + rest, depth + 1, nodes) ==
            if depth + 1 + MembersDepth(ms) > limits.maxDepth || nodes + MembersNodes(ms) > limits.maxNodes then Exceeded
            else Scan(scanner, limits, rest, depth, nodes + MembersNodes(ms))
    decreases ms, 0
  {
    hide *;
    MembersSplit(ms, rest);
    FirstMember(ms);
    var m, n := ms[0], nodes + TreeNodes(ms[0].value);
    if |ms| == 1 {
      ScanMemberBlanks(scanner, limits, m, "}" + rest, depth + 1, nodes);
      AfterMeans(scanner, limits, "}" + rest, depth + 1, nodes, TreeDepth(m.value), TreeNodes(m.value));
      ScanClosing(scanner, limits, '}', rest, depth + 1, n);
    } else {
      var more := MembersText(ms[1..]) + rest;
      ScanMemberBlanks(scanner, limits, m, "," + more, depth + 1, nodes);
      AfterMeans(scanner, limits, "," + more, depth + 1, nodes, TreeDepth(m.value), TreeNodes(m.value));
      ScanSeparator(scanner, limits, ',', more, depth + 1, n);
      if n <= limits.maxNodes {
        ScanMembers(scanner, limits, ms[1..], rest, depth, n);
      }
    }
  }

  /** A key is followed by a colon and so adds no node. */
  lemma {:induction false} ScanMember(scanner: Scanner, limits: Limits, m: Member, rest: string, depth: nat, nodes: nat)
    requires PiecesOk(m.key) && Space(m.beforeColon) && Space(m.afterColon) && Ok(m.value) && ValueEnds(rest)
    requires depth <= limits.maxDepth && nodes <= limits.maxNodes
    ensures Scan(scanner, limits, MemberText(m) + rest, depth, nodes) ==
            After(scanner, limits, rest, depth, nodes, TreeDepth(m.value), TreeNodes(m.value))
    decreases m, 2
  {
    hide Scan;
    var value := Text(m.value) + rest;
    var colon := ":" + (m.afterColon + value);
    assert MemberText(m) + rest == Quoted(m.key) + (m.beforeColon + colon);
    assert KeyFollows(m.beforeColon + colon) by { JsonReading.SkipSpaceText(m.beforeColon, colon); }
    ScanString(scanner, limits, m.key, m.beforeColon + colon, depth, nodes);
    ScanSpace(scanner, limits, m.beforeColon, colon, depth, nodes);
    ScanSeparator(scanner, limits, ':', m.afterColon + value, depth, nodes);
    ScanSpace(scanner, limits, m.afterColon, value, depth, nodes);
    ScanTree(scanner, limits, m.value, rest, depth, nodes);
  }

  /** On a JSON text either scanner refuses exactly what exceeds the limits, and never faults. */
  lemma ScanDecides(scanner: Scanner, limits: Limits, d: JsonDocument)
    requires DocumentOk(d)
    ensures Scan(scanner, limits, DocumentText(d), 0, 0) == if Exceeds(limits, d.value) then Exceeded else Within
  {
    var s := Text(d.value) + d.after;
    assert DocumentText(d) == d.before + s;
    ScanSpace(scanner, limits, d.before, s, 0, 0);
    assert d.after + "" == d.after;
    JsonReading.SkipSpaceText(d.after, "");
    ScanTree(scanner, limits, d.value, d.after, 0, 0);
    ScanSpace(scanner, limits, d.after, "", 0, TreeNodes(d.value));
  }
}
