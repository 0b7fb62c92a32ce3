/** What the two index-driven scanners decide on any text, written on the text still to be read. */
module ScanSpec {
  import opened Records
  import opened JsonText

  /** The limits of a document profile. */
  datatype Limits = Limits(maxDepth: nat, maxNodes: nat)

  const LEDGER_LIMITS := Limits(16, 500000)

  /** `Fault` is an index beyond the end of the text, which the second scanner does not guard. */
  datatype Verdict = Within | Exceeded | Fault

  /** The two scanners differ only outside the grammar: in what ends or starts a bare token and
      in what an unterminated string does. */
  datatype Scanner = First | Second

  /** Characters that the pattern `\s` matches. */
  predicate IsPatternSpace(c: char) {
    var n := c as int;
    9 <= n <= 13 || 28 <= n <= 32 || n == 0x85 || n == 0xA0 || n == 0x1680 || 0x2000 <= n <= 0x200A ||
    n == 0x2028 || n == 0x2029 || n == 0x202F || n == 0x205F || n == 0x3000
  }

  predicate Structural(c: char) { c in "[]{},:" }

  predicate EndsBare(scanner: Scanner, c: char) {
    match scanner
    case First => IsPatternSpace(c) || Structural(c)
    case Second => IsSpace(c) || c in ",]}:"
  }

  predicate StartsBare(scanner: Scanner, c: char) {
    match scanner
    case First => !IsPatternSpace(c) && !Structural(c)
    case Second => IsDigit(c) || c in "-tfn"
  }

  /** The length of the longest prefix that no separator interrupts. */
  function BareRun(scanner: Scanner, s: string): (n: nat)
    ensures n <= |s|
  {
    if s == "" || EndsBare(scanner, s[0]) then 0 else 1 + BareRun(scanner, s[1..])
  }

  /** The length of a string's text after its opening quote, with the closing quote. */
  function StringEnd(s: string): (r: Option<nat>)
    ensures r.Some? ==> 0 < r.value <= |s|
  {
    if s == "" then None
    else if s[0] == '"' then Some(1)
    else if s[0] == '\\' then
      if |s| < 2 then None else Beyond(2, StringEnd(s[2..]))
    else Beyond(1, StringEnd(s[1..]))
  }

  function Beyond(k: nat, r: Option<nat>): Option<nat> {
    if r.None? then None else Some(k + r.value)
  }

  /** Does an unterminated string end in a backslash with nothing to escape? */
  predicate DanglingEscape(s: string) {
    s != "" &&
    if s[0] == '\\' then |s| == 1 || DanglingEscape(s[2..]) else s[0] != '"' && DanglingEscape(s[1..])
  }

  predicate KeyFollows(s: string) { SkipSpace(s) != "" && SkipSpace(s)[0] == ':' }

  function Scan(scanner: Scanner, limits: Limits, s: string, depth: int, nodes: nat): Verdict
    decreases |s|, 0
  {
    if s == "" then Within
    else
      var c := s[0];
      if IsSpace(c) || c == ',' || c == ':' then Scan(scanner, limits, s[1..], depth, nodes)
      else if c == '{' || c == '[' then
        if depth + 1 > limits.maxDepth || nodes + 1 > limits.maxNodes then Exceeded
        else Scan(scanner, limits, s[1..], depth + 1, nodes + 1)
      else if c == '}' || c == ']' then Scan(scanner, limits, s[1..], depth - 1, nodes)
      else if c == '"' then
        var end := StringEnd(s[1..]);
        if end.Some? then
          var rest := s[1 + end.value..];
          Counted(scanner, limits, rest, depth, if KeyFollows(rest) then nodes else nodes + 1)
        else if scanner.First? then Within
        else if DanglingEscape(s[1..]) then Fault
        else if nodes + 1 > limits.maxNodes then Exceeded
        else Within
      else if StartsBare(scanner, c) then
        Counted(scanner, limits, s[1 + BareRun(scanner, s[1..])..], depth, nodes + 1)
      else if scanner.First? then Within
      else Scan(scanner, limits, s[1..], depth, nodes)
  }

  function Counted(scanner: Scanner, limits: Limits, rest: string, depth: int, nodes: nat): Verdict
    decreases |rest|, 1
  {
    if nodes > limits.maxNodes then Exceeded else Scan(scanner, limits, rest, depth, nodes)
  }

  /** Does the second scanner, skipping closed strings and bare tokens, come to a string that ends
      within an escape? Limits play no part in this. */
  predicate Dangles(s: string)
    decreases |s|
  {
    s != "" &&
    var c := s[0];
    if c == '"' then
      var end := StringEnd(s[1..]);
      if end.Some? then Dangles(s[1 + end.value..]) else DanglingEscape(s[1..])
    else if StartsBare(Second, c) then Dangles(s[1 + BareRun(Second, s[1..])..])
    else Dangles(s[1..])
  }

  // ---------- The recursive measures of the grammar ----------

  function TreeDepth(t: Tree): nat
    decreases t, 1
  {
    match t
    case ArrayTree(_, es) => 1 + ElementsDepth(es)
    case ObjectTree(_, ms) => 1 + MembersDepth(ms)
    case _ => 0
  }

  function ElementsDepth(es: seq<Element>): nat
    decreases es, 0
  {
    if es == [] then 0 else Max(TreeDepth(es[0].value), ElementsDepth(es[1..]))
  }

  function MembersDepth(ms: seq<Member>): nat
    decreases ms, 0
  {
    if ms == [] then 0 else Max(TreeDepth(ms[0].value), MembersDepth(ms[1..]))
  }

  function TreeNodes(t: Tree): nat
    decreases t, 1
  {
    match t
    case ArrayTree(_, es) => 1 + ElementsNodes(es)
    case ObjectTree(_, ms) => 1 + MembersNodes(ms)
    case _ => 1
  }

  function ElementsNodes(es: seq<Element>): nat
    decreases es, 0
  {
    if es == [] then 0 else TreeNodes(es[0].value) + ElementsNodes(es[1..])
  }

  function MembersNodes(ms: seq<Member>): nat
    decreases ms, 0
  {
    if ms == [] then 0 else TreeNodes(ms[0].value) + MembersNodes(ms[1..])
  }

  predicate Exceeds(limits: Limits, t: Tree) {
    TreeDepth(t) > limits.maxDepth || TreeNodes(t) > limits.maxNodes
  }
}
