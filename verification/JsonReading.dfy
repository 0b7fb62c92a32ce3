/** The reader finds exactly the value of the grammar, on every JSON text. */
module JsonReading {
  import opened Records
  import opened JsonText

  /** The answer a reader owes for a value and what follows it. */
  function Answer<T>(v: Option<T>, rest: string): Read<T> {
    if v.None? then Refused else Found(v.value, rest)
  }

  lemma {:induction false} SkipSpaceText(blank: string, rest: string)
    requires Space(blank)
    requires rest == "" || !IsSpace(rest[0])
    ensures SkipSpace(blank + rest) == rest
  {
    if blank == "" {
      assert blank + rest == rest;
    } else {
      assert (blank + rest)[1..] == blank[1..] + rest;
      SkipSpaceText(blank[1..], rest);
    }
  }

  lemma {:induction false} ReadPiecesText(ps: seq<Piece>, rest: string)
    requires PiecesOk(ps)
    ensures ReadPieces(PiecesText(ps) + "\"" + rest) == Found(ps, rest)
  {
    var s := PiecesText(ps) + "\"" + rest;
    if ps == [] {
      assert s[1..] == rest;
    } else {
      var tail := PiecesText(ps[1..]) + "\"" + rest;
      var head := PieceText(ps[0]);
      assert PieceOk(ps[0]);
      assert s == head + tail;
      assert s[|head|..] == tail;
      ReadPiecesText(ps[1..], rest);
      assert [ps[0]] + ps[1..] == ps;
    }
  }

  lemma ReadStringText(ps: seq<Piece>, rest: string)
    requires PiecesOk(ps)
    ensures ReadString((Quoted(ps) + rest)[1..]) == Answer(PiecesValue(ps), rest)
  {
    assert (Quoted(ps) + rest)[1..] == PiecesText(ps) + "\"" + rest;
    ReadPiecesText(ps, rest);
  }

  predicate NumberChars(s: string) { forall i :: 0 <= i < |s| ==> IsNumberChar(s[i]) }

  /** A number ends where its characters end. */
  predicate Delimited(rest: string) { rest == "" || !IsNumberChar(rest[0]) }

  lemma {:induction false} NumberRunText(s: string, rest: string)
    requires NumberChars(s) && Delimited(rest)
    ensures NumberRun(s + rest) == |s|
  {
    if s == "" {
      assert s + rest == rest;
    } else {
      assert (s + rest)[1..] == s[1..] + rest;
      NumberRunText(s[1..], rest);
    }
  }

  /** A number text is an integer token exactly when it has neither fraction nor exponent. */
  lemma NumberIsInteger(n: Number)
    requires NumberOk(n)
    ensures NumberChars(NumberText(n)) && NumberText(n) != ""
    ensures IsDigit(NumberText(n)[0]) || NumberText(n)[0] == '-'
    ensures IntegerToken(NumberText(n)) <==> n.fraction == n.exponent == ""
  {
    var s := NumberText(n);
    var k := |n.integer|;
    assert s[0] == n.integer[0];
    if n.fraction != "" {
      assert s[k] == '.';
    } else if n.exponent != "" {
      assert s[k] == n.exponent[0];
    } else {
      assert s == n.integer;
    }
  }

  lemma ReadNumberText(n: Number, rest: string)
    requires NumberOk(n) && Delimited(rest)
    ensures ReadNumber(NumberText(n) + rest) == Answer(Value(NumberTree(n)), rest)
  {
    var s := NumberText(n);
    NumberIsInteger(n);
    NumberRunText(s, rest);
    assert (s + rest)[..|s|] == s && (s + rest)[|s|..] == rest;
    if n.fraction == n.exponent == "" {
      assert s == n.integer;
    }
  }

  lemma TextStart(t: Tree)
    requires Ok(t)
    ensures Text(t) != "" && !IsSpace(Text(t)[0]) && Text(t)[0] !in "]},:"
  {
    match t
    case NumberTree(n) => NumberIsInteger(n);
    case _ =>
  }

  lemma ReadWordText(w: Word, rest: string)
    ensures ReadValue(WordText(w) + rest) == Found(WordValue(w), rest)
  {
    var s := WordText(w) + rest;
    assert s[|WordText(w)|..] == rest && WordText(w) <= s;
    assert s[0] == WordText(w)[0];
  }

  lemma ReadNumberValue(n: Number, rest: string)
    requires NumberOk(n) && Delimited(rest)
    ensures ReadValue(NumberText(n) + rest) == Answer(Value(NumberTree(n)), rest)
  {
    NumberIsInteger(n);
    assert (NumberText(n) + rest)[0] == NumberText(n)[0];
    ReadNumberText(n, rest);
  }

  lemma {:induction false} ReadValueText(t: Tree, rest: string)
    requires Ok(t) && Delimited(rest)
    ensures ReadValue(Text(t) + rest) == Answer(Value(t), rest)
    decreases t, 1
  {
    match t
    case WordTree(w) =>
      ReadWordText(w, rest);
    case NumberTree(n) =>
      ReadNumberValue(n, rest);
    case StringTree(ps) =>
      hide ReadString;
      ReadStringText(ps, rest);
    case ArrayTree(_, _) =>
      ReadArrayText(t, rest);
    case ObjectTree(_, _) =>
      ReadObjectText(t, rest);
  }

  lemma {:induction false} ReadArrayText(t: Tree, rest: string)
    requires t.ArrayTree? && Ok(t)
    ensures ReadValue(Text(t) + rest) == Answer(Value(t), rest)
    decreases t, 0
  {
    var s := Text(t) + rest;
    if t.elements == [] {
      assert s[1..] == t.blank + ("]" + rest);
      SkipSpaceText(t.blank, "]" + rest);
      assert ("]" + rest)[1..] == rest;
    } else {
      assert s[1..] == ElementsText(t.elements) + rest;
      ReadElementsText(t.elements, rest);
    }
  }

  lemma {:induction false} ReadObjectText(t: Tree, rest: string)
    requires t.ObjectTree? && Ok(t)
    ensures ReadValue(Text(t) + rest) == Answer(Value(t), rest)
    decreases t, 0
  {
    hide ReadElements, ReadString, ReadNumber, ElementsText;
    var s := Text(t) + rest;
    if t.members == [] {
      assert s[1..] == t.blank + ("}" + rest);
      SkipSpaceText(t.blank, "}" + rest);
      assert ("}" + rest)[1..] == rest;
    } else {
      assert s[1..] == MembersText(t.members) + rest;
      ReadMembersText(t.members, rest);
    }
  }

  lemma {:induction false} ReadElementsText(es: seq<Element>, rest: string)
    requires ElementsOk(es) && es != []
    ensures var s := SkipSpace(ElementsText(es) + rest);
            && s != "" && s[0] != ']'
            && ReadElements(s) == Answer(ElementsValue(es), rest)
    decreases es, 0
  {
    hide ReadValue, SkipSpace, Value;
    var e := es[0];
    var closing := if |es| == 1 then "]" + rest else "," + (ElementsText(es[1..]) + rest);
    var afterValue := e.after + closing;
    var s := Text(e.value) + afterValue;
    assert ElementsText(es) + rest == e.before + s;
    TextStart(e.value);
    SkipSpaceText(e.before, s);
    assert Delimited(afterValue);
    ReadValueText(e.value, afterValue);
    assert SkipSpace(afterValue) == closing by { SkipSpaceText(e.after, closing); }
    var v := ReadValue(s);
    if v.Found? {
      assert v.rest == afterValue;
      if |es| == 1 {
        assert closing[1..] == rest;
        assert es[1..] == [] && ElementsValue([]) == Some([]);
        assert [v.value] + [] == [v.value];
      } else {
        assert closing[1..] == ElementsText(es[1..]) + rest;
        ReadElementsText(es[1..], rest);
      }
    }
  }

  lemma {:induction false} ReadMemberText(m: Member, rest: string)
    requires PiecesOk(m.key) && Space(m.beforeColon) && Space(m.afterColon) && Ok(m.value) && Delimited(rest)
    ensures ReadMember(MemberText(m) + rest) == Answer(MemberValue(m), rest)
    decreases m, 2
  {
    hide ReadValue, ReadString, SkipSpace;
    var value := Text(m.value) + rest;
    var colon := ":" + (m.afterColon + value);
    var s := Quoted(m.key) + (m.beforeColon + colon);
    assert MemberText(m) + rest == s;
    ReadStringText(m.key, m.beforeColon + colon);
    assert SkipSpace(m.beforeColon + colon) == colon by { SkipSpaceText(m.beforeColon, colon); }
    assert SkipSpace(colon[1..]) == value by {
      assert colon[1..] == m.afterColon + value;
      TextStart(m.value);
      SkipSpaceText(m.afterColon, value);
    }
    ReadValueText(m.value, rest);
  }

  lemma {:induction false} ReadMembersText(ms: seq<Member>, rest: string)
    requires MembersOk(ms) && ms != []
    ensures var s := SkipSpace(MembersText(ms) + rest);
            && s != "" && s[0] == '"'
            && ReadMembers(s) == Answer(MembersValue(ms), rest)
    decreases ms, 0
  {
    hide ReadMember, SkipSpace, MemberValue;
    var m := ms[0];
    var closing := if |ms| == 1 then "}" + rest else "," + (MembersText(ms[1..]) + rest);
    var s := MemberText(m) + (m.after + closing);
    assert MembersText(ms) + rest == m.before + s;
    SkipSpaceText(m.before, s);
    ReadMemberText(m, m.after + closing);
    assert SkipSpace(m.after + closing) == closing by { SkipSpaceText(m.after, closing); }
    var f := ReadMember(s);
    if f.Found? {
      if |ms| == 1 {
        assert closing[1..] == rest;
        assert ms[1..] == [] && MembersValue([]) == Some([]);
        assert [f.value] + [] == [f.value];
      } else {
        assert closing[1..] == MembersText(ms[1..]) + rest;
        ReadMembersText(ms[1..], rest);
      }
    }
  }

  /** Reading a text of the grammar yields the value the grammar gives it, and refuses it otherwise;
      so the grammar gives every text at most one value. */
  lemma ReadTextIsValue(d: JsonDocument)
    requires DocumentOk(d)
    ensures ReadText(DocumentText(d)) == DocumentValue(d)
  {
    var s := Text(d.value) + d.after;
    assert DocumentText(d) == d.before + s;
    TextStart(d.value);
    SkipSpaceText(d.before, s);
    assert Delimited(d.after);
    ReadValueText(d.value, d.after);
    assert d.after + "" == d.after;
    SkipSpaceText(d.after, "");
  }
}
