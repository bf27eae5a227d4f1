/** Derivation paths (accounts/hd.go): parsing them from text and printing them undo
    each other.
 */
module HdPaths {
  import opened Options

  const HARDENED: nat := 0x8000_0000
  const MAX_UINT32: nat := 0xFFFF_FFFF

  /** m/44'/60'/0'/0 */
  const DEFAULT_ROOT: seq<nat> := [HARDENED + 44, HARDENED + 60, HARDENED, 0]

  /** unicode.IsSpace */
  predicate IsSpace(c: char) {
    var u := c as int;
    || 9 <= u <= 13 || u == 32 || u == 0x85 || u == 0xA0 || u == 0x1680 || 0x2000 <= u <= 0x200A
    || u == 0x2028 || u == 0x2029 || u == 0x202F || u == 0x205F || u == 0x3000
  }

  /** strings.TrimSpace */
  function Trim(s: string): (t: string)
    ensures t != [] ==> !IsSpace(t[0]) && !IsSpace(t[|t| - 1])
  {
    if s == [] then []
    else if IsSpace(s[0]) then Trim(s[1..])
    else if IsSpace(s[|s| - 1]) then Trim(s[..|s| - 1])
    else s
  }

  /** strings.Split at slashes; there is always a first part. */
  function Split(s: string): (parts: seq<string>)
    ensures |parts| > 0
  {
    if s == [] then [[]]
    else
      var rest := Split(s[1..]);
      if s[0] == '/' then [[]] + rest else [[s[0]] + rest[0]] + rest[1..]
  }

  function DigitValue(c: char): nat {
    if '0' <= c <= '9' then c as int - '0' as int
    else if 'a' <= c <= 'z' then c as int - 'a' as int + 10
    else if 'A' <= c <= 'Z' then c as int - 'A' as int + 10
    else 63
  }

  /** What a number scanner has seen last. */
  datatype Last = Nothing | Digit | Separator

  datatype Scan = Scan(last: Last, value: nat, digits: nat, ok: bool)

  /** One more character: an underscore has to follow a digit or a prefix. */
  function Step(scan: Scan, c: char, base: nat): Scan {
    if c == '_' then scan.(last := Separator, ok := scan.ok && scan.last == Digit)
    else if DigitValue(c) < base then Scan(Digit, scan.value * base + DigitValue(c), scan.digits + 1, scan.ok)
    else scan.(ok := false)
  }

  function Scanned(s: string, base: nat, start: Last): Scan {
    if s == [] then Scan(start, 0, 0, true) else Step(Scanned(s[..|s| - 1], base, start), s[|s| - 1], base)
  }

  /** The number the whole text spells, if it does. */
  function Number(s: string, base: nat, start: Last): Option<nat> {
    var scan := Scanned(s, base, start);
    if scan.ok && scan.digits > 0 && scan.last == Digit then Some(scan.value) else None
  }

  /** big.Int.SetString with base 0 after the sign: a prefix decides the base. */
  function Unsigned(s: string): Option<nat> {
    if |s| > 1 && s[0] == '0' then
      if s[1] == 'b' || s[1] == 'B' then Number(s[2..], 2, Digit)
      else if s[1] == 'o' || s[1] == 'O' then Number(s[2..], 8, Digit)
      else if s[1] == 'x' || s[1] == 'X' then Number(s[2..], 16, Digit)
      else Number(s[1..], 8, Digit)
    else Number(s, 10, Nothing)
  }

  function SetString(s: string): Option<int> {
    if s == [] then None
    else if s[0] == '-' then (var n := Unsigned(s[1..]); if n.Some? then Some(0 - n.value) else None)
    else if s[0] == '+' then (var n := Unsigned(s[1..]); if n.Some? then Some(n.value) else None)
    else var n := Unsigned(s); if n.Some? then Some(n.value) else None
  }

  /** One component: a number, hardened by a trailing quote. */
  function Component(text: string): (r: Option<nat>)
    ensures r.Some? ==> r.value <= MAX_UINT32
  {
    var t := Trim(text);
    var quoted := t != [] && t[|t| - 1] == '\'';
    var offset := if quoted then HARDENED else 0;
    var n := SetString(if quoted then Trim(t[..|t| - 1]) else t);
    if n.None? || n.value < 0 || n.value > MAX_UINT32 - offset then None else Some(offset + n.value)
  }

  function Components(parts: seq<string>): Option<seq<nat>> {
    if parts == [] then Some([])
    else
      var init, last := Components(parts[..|parts| - 1]), Component(parts[|parts| - 1]);
      if init.Some? && last.Some? then Some(init.value + [last.value]) else None
  }

  /** What a path text means. */
  function Parsed(path: string): Option<seq<nat>> {
    var parts := Split(path);
    var first := Trim(parts[0]);
    var relative := first != "m";
    var rest := if relative then parts else parts[1..];
    if first == "" || rest == [] then None
    else
      var tail := Components(rest);
      if tail.None? then None else Some((if relative then DEFAULT_ROOT else []) + tail.value)
  }

  /** ParseDerivationPath */
  method ParseDerivationPath(path: string) returns (r: Option<seq<nat>>)
    ensures r == Parsed(path)
  {
    hide Components, Split, Trim;
    var result: seq<nat> := [];
    var components := Split(path);
    if Trim(components[0]) == "" {
      return None;
    } else if Trim(components[0]) == "m" {
      components := components[1..];
    } else {
      result := result + DEFAULT_ROOT;
      assert result == DEFAULT_ROOT;
    }
    if components == [] {
      return None;
    }
    r := ParseComponents(components, result);
  }

  /** The loop of ParseDerivationPath. */
  method ParseComponents(components: seq<string>, root: seq<nat>) returns (r: Option<seq<nat>>)
    ensures var all := Components(components); r == if all.Some? then Some(root + all.value) else None
  {
    hide SetString, Trim;
    var result := root;
    for i := 0 to |components|
      invariant Components(components[..i]).Some? && result == root + Components(components[..i]).value
    {
      assert components[..i + 1][..i] == components[..i];
      var component := Trim(components[i]);
      var value := 0;
      if component != [] && component[|component| - 1] == '\'' {
        value := HARDENED;
        component := Trim(component[..|component| - 1]);
      }
      var big := SetString(component);
      if big.None? || big.value < 0 || big.value > MAX_UINT32 - value {
        Stuck(components, i);
        return None;
      }
      result := result + [value + big.value];
    }
    assert components[..|components|] == components;
    r := Some(result);
  }

  /** A component that does not parse spoils the whole path. */
  lemma {:induction false} Stuck(parts: seq<string>, i: nat)
    requires i < |parts| && Component(parts[i]).None?
    ensures Components(parts).None?
    decreases |parts|
  {
    if i < |parts| - 1 {
      Stuck(parts[..|parts| - 1], i);
    }
  }

  function Decimal(n: nat): (s: string)
    ensures s != [] && forall c :: c in s ==> '0' <= c <= '9'
    ensures n > 0 ==> s[0] != '0'
  {
    var digit := ('0' as int + n % 10) as char;
    if n < 10 then [digit] else Decimal(n / 10) + [digit]
  }

  /** How a component is printed. */
  function Text(component: nat): string {
    if component >= HARDENED then Decimal(component - HARDENED) + "'" else Decimal(component)
  }

  function Printed(path: seq<nat>): string {
    if path == [] then "m" else Printed(path[..|path| - 1]) + "/" + Text(path[|path| - 1])
  }

  /** DerivationPath.String */
  method ToString(path: seq<nat>) returns (result: string)
    ensures result == Printed(path)
  {
    result := "m";
    for i := 0 to |path|
      invariant result == Printed(path[..i])
    {
      assert path[..i + 1][..i] == path[..i];
      var component, hardened := path[i], false;
      if component >= HARDENED {
        component, hardened := component - HARDENED, true;
      }
      result := result + "/" + Decimal(component);
      if hardened {
        result := result + "'";
      }
    }
    assert path[..|path|] == path;
  }

  /** Scanning decimal digits gives the number printed. */
  lemma {:induction false} ScanDecimal(n: nat, start: Last)
    ensures var scan := Scanned(Decimal(n), 10, start);
      scan.ok && scan.value == n && scan.digits > 0 && scan.last == Digit
  {
    var s := Decimal(n);
    if n >= 10 {
      ScanDecimal(n / 10, start);
      assert s[..|s| - 1] == Decimal(n / 10);
    } else {
      assert s[..|s| - 1] == [];
    }
  }

  lemma DecimalSets(n: nat)
    ensures SetString(Decimal(n)) == Some(n)
  {
    ScanDecimal(n, Nothing);
    assert Decimal(n)[0] in Decimal(n);
    if n == 0 { assert Decimal(n) == "0"; }
  }

  lemma TrimSame(s: string)
    requires s != [] ==> !IsSpace(s[0]) && !IsSpace(s[|s| - 1])
    ensures Trim(s) == s
  {
  }

  /** A printed component parses to itself. */
  lemma TextParses(c: nat)
    requires c <= MAX_UINT32
    ensures Component(Text(c)) == Some(c) && '/' !in Text(c)
  {
    var d := Decimal(if c >= HARDENED then c - HARDENED else c);
    assert d[0] in d && d[|d| - 1] in d;
    TrimSame(d);
    TrimSame(Text(c));
    DecimalSets(if c >= HARDENED then c - HARDENED else c);
    if c >= HARDENED {
      assert Text(c)[..|Text(c)| - 1] == d;
    }
  }

  /** Splitting at the slash put in front of a part without one. */
  lemma {:induction false} SplitLast(s: string, t: string)
    requires '/' !in t
    ensures Split(s + "/" + t) == Split(s) + [t]
    decreases |s|
  {
    var all := s + "/" + t;
    if s == [] {
      assert all == "/" + t && all[1..] == t;
      SplitNone(t);
    } else {
      assert all[1..] == s[1..] + "/" + t;
      SplitLast(s[1..], t);
    }
  }

  lemma {:induction false} SplitNone(t: string)
    requires '/' !in t
    ensures Split(t) == [t]
  {
    if t != [] {
      SplitNone(t[1..]);
      assert [t[0]] + t[1..] == t;
    }
  }

  lemma NoComponents()
    ensures Components([]) == Some([])
  {
  }

  lemma {:induction false} PrintedSplits(path: seq<nat>)
    requires forall c :: c in path ==> c <= MAX_UINT32
    ensures var parts := Split(Printed(path)); parts[0] == "m" && Components(parts[1..]) == Some(path)
  {
    hide Split, Text, Component, Components;
    if path == [] {
      SplitNone("m");
      NoComponents();
      assert ["m"][1..] == [];
    } else {
      var init, last := path[..|path| - 1], path[|path| - 1];
      assert last in path && forall c :: c in init ==> c in path;
      PrintedSplits(init);
      TextParses(last);
      SplitLast(Printed(init), Text(last));
      var parts := Split(Printed(init));
      assert (parts + [Text(last)])[1..] == parts[1..] + [Text(last)];
      ComponentsLast(parts[1..], Text(last), init, last);
      assert init + [last] == path;
    }
  }

  lemma ComponentsLast(parts: seq<string>, t: string, init: seq<nat>, last: nat)
    requires Components(parts) == Some(init) && Component(t) == Some(last)
    ensures Components(parts + [t]) == Some(init + [last])
  {
    hide Component;
    assert (parts + [t])[..|parts|] == parts;
  }

  /** Parsing the printed form of a path gives the path. */
  lemma RoundTrip(path: seq<nat>)
    requires path != [] && forall c :: c in path ==> c <= MAX_UINT32
    ensures Parsed(Printed(path)) == Some(path)
  {
    PrintedSplits(path);
    TrimSame("m");
    assert [] + path == path;
  }

  lemma {:induction false} ComponentsInRange(parts: seq<string>)
    ensures var r := Components(parts); r.Some? ==> |r.value| == |parts| && forall c :: c in r.value ==> c <= MAX_UINT32
  {
    if parts != [] {
      ComponentsInRange(parts[..|parts| - 1]);
    }
  }

  /** What parses is a non-empty path of 32-bit components; printing it gives a
      canonical text with the same meaning. */
  lemma PrintedIsCanonical(text: string)
    requires Parsed(text).Some?
    ensures var path := Parsed(text).value;
      && path != [] && (forall c :: c in path ==> c <= MAX_UINT32)
      && Parsed(Printed(path)) == Parsed(text)
  {
    var parts := Split(text);
    ComponentsInRange(parts);
    ComponentsInRange(parts[1..]);
    RoundTrip(Parsed(text).value);
  }

  /** Different paths print differently. */
  lemma PrintedInjective(p: seq<nat>, q: seq<nat>)
    requires (forall c :: c in p ==> c <= MAX_UINT32) && (forall c :: c in q ==> c <= MAX_UINT32)
    ensures Printed(p) == Printed(q) ==> p == q
  {
    PrintedSplits(p);
    PrintedSplits(q);
  }
}
