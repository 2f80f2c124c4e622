/** The interactive router's design-rule resolver for pcbnew
    (PNS_PCBNEW_RULE_RESOLVER in pcbnew/router/pns_kicad_iface.cpp):
    differential-pair net-name suffixes, the clearance caches built when
    the resolver is created, the clearance queries and hole-to-hole
    collisions. */
module RouterRules {
  import opened Geom
  import opened Wrappers

  // ---------------------------------------------------------------
  // Board data the resolver reads
  // ---------------------------------------------------------------

  /** A net: its name and the name of its net class. */
  datatype NetInfo = NetInfo(name: string, className: string)

  /** The two values of a net class the resolver uses. */
  datatype NetClass = NetClass(clearance: int, diffPairGap: int)

  /** A pad, identified by `id` (the model's stand-in for the pad pointer). */
  datatype Pad = Pad(id: int, localClearance: int)

  /** A footprint: its own local clearance and its pads. */
  datatype Module = Module(localClearance: int, pads: seq<Pad>)

  /** The board as the resolver sees it.
      `nets[i]` is FindNet(i) (None for a missing net), `netCodes` is
      FindNet(name) followed by GetNet(), `netClasses` is the design
      settings' net-class list looked up by name. */
  datatype Board = Board(
    nets: seq<Option<NetInfo>>,
    netCodes: map<string, int>,
    netClasses: map<string, NetClass>,
    modules: seq<Module>,
    holeToHoleMin: int)

  /** Every net the board has names a net class the board defines (the
      constructor dereferences the class it finds without checking it). */
  predicate ClassesKnown(board: Board) {
    forall i :: 0 <= i < |board.nets| && board.nets[i].Some? ==>
      board.nets[i].value.className in board.netClasses
  }

  /** Millimeter2iu(0.254) in pcbnew's internal unit (1 nm). */
  const FallbackClearance: int := 254000

  // ---------------------------------------------------------------
  // Differential-pair suffixes (matchDpSuffix)
  // ---------------------------------------------------------------

  predicate IsDigit(c: char) { '0' <= c <= '9' }

  /** wxString::Right(n): the last n characters, or all of them. */
  function Right(s: string, n: nat): string {
    if n >= |s| then s else s[|s| - n..]
  }

  /** wxString::Left(n): the first n characters, or all of them. */
  function Left(s: string, n: nat): string {
    if n >= |s| then s else s[..n]
  }

  /** `s.Left( 1 ) == c`: the string starts with the character c. */
  predicate FirstIs(s: string, c: char) { |s| > 0 && s[0] == c }

  predicate IsSign(c: char) { c == '+' || c == '-' }

  /** wxString::IsNumber: non-empty, an optional leading sign, then
      nothing but digits. */
  predicate IsNumber(s: string) {
    |s| > 0 && forall i :: (if IsSign(s[0]) then 1 else 0) <= i < |s| ==> IsDigit(s[i])
  }

  predicate EndsWith(s: string, c: char) { |s| > 0 && s[|s| - 1] == c }

  /** The if-chain of matchDpSuffix: the polarity and the complement's
      suffix, before the base name is put in front of it. */
  function SuffixRule(name: string): (int, string) {
    if EndsWith(name, '+') then (1, "-")
    else if EndsWith(name, 'P') then (1, "N")
    else if EndsWith(name, '-') then (-1, "+")
    else if EndsWith(name, 'N') then (-1, "P")
    else if IsNumber(Right(name, 2)) && FirstIs(Right(name, 3), 'P') then (1, "N" + Right(name, 2))
    else if IsNumber(Right(name, 1)) && FirstIs(Right(name, 2), 'P') then (1, "N" + Right(name, 1))
    else if IsNumber(Right(name, 2)) && FirstIs(Right(name, 3), 'N') then (-1, "P" + Right(name, 2))
    else if IsNumber(Right(name, 1)) && FirstIs(Right(name, 2), 'N') then (-1, "P" + Right(name, 1))
    else (0, "")
  }

  /** The results of matchDpSuffix: the return value and the final values
      of its two out-parameters. */
  datatype DpMatch = DpMatch(polarity: int, complement: string, base: string)

  /** The polarity letter or sign swapped: P and N, + and -. */
  function SwapChar(c: char): char {
    match c
    case 'P' => 'N'
    case 'N' => 'P'
    case '+' => '-'
    case '-' => '+'
    case _ => c
  }

  /** A suffix with its polarity character swapped. */
  function SwapSuffix(s: string): string {
    if |s| == 0 then s else [SwapChar(s[0])] + s[1..]
  }

  predicate PositiveChar(c: char) { c == '+' || c == 'P' }

  predicate PolarityLetter(c: char) { c == 'P' || c == 'N' }

  predicate PolarityMark(c: char) { c == '+' || c == '-' || PolarityLetter(c) }

  /** Index-based reading of the suffix matchDpSuffix recognises: its
      length, 0 when there is none. The name ends in +, -, P or N, or in
      P or N followed by two digits or a sign and a digit, or by one
      digit. */
  function SuffixLength(name: string): (k: nat)
    ensures k <= |name| && k <= 3
  {
    var n := |name|;
    if n >= 1 && PolarityMark(name[n - 1]) then 1
    else if n >= 3 && PolarityLetter(name[n - 3]) && (IsDigit(name[n - 2]) || IsSign(name[n - 2])) &&
            IsDigit(name[n - 1]) then 3
    else if n >= 2 && PolarityLetter(name[n - 2]) && IsDigit(name[n - 1]) then 2
    else 0
  }

  /** What Right, FirstIs and IsNumber see of the last characters. */
  lemma RightFacts(name: string)
    ensures |name| >= 1 ==> Right(name, 1) == [name[|name| - 1]]
    ensures |name| >= 2 ==> Right(name, 2) == name[|name| - 2..]
    ensures |name| >= 1 ==> (IsNumber(Right(name, 1)) <==> IsDigit(name[|name| - 1]) || IsSign(name[|name| - 1]))
    ensures |name| >= 2 ==> (IsNumber(Right(name, 2)) <==>
      (IsDigit(name[|name| - 2]) || IsSign(name[|name| - 2])) && IsDigit(name[|name| - 1]))
    ensures |name| == 1 ==> (IsNumber(Right(name, 2)) <==> IsDigit(name[0]) || IsSign(name[0]))
    ensures |name| == 0 ==> !IsNumber(Right(name, 1)) && !IsNumber(Right(name, 2))
    ensures forall c :: |name| >= 2 ==> (FirstIs(Right(name, 2), c) <==> name[|name| - 2] == c)
    ensures forall c :: |name| == 1 ==> (FirstIs(Right(name, 2), c) <==> name[0] == c)
    ensures forall c :: |name| >= 3 ==> (FirstIs(Right(name, 3), c) <==> name[|name| - 3] == c)
    ensures forall c :: |name| <= 2 ==> (FirstIs(Right(name, 3), c) <==> |name| > 0 && name[0] == c)
  {
    var n := |name|;
    if n >= 2 {
      var r2 := Right(name, 2);
      assert r2 == name[n - 2..] && |r2| == 2;
      assert IsNumber(r2) <==> (IsDigit(r2[0]) || IsSign(r2[0])) && IsDigit(r2[1]);
    }
  }

  /** The if-chain agrees with the index-based reading: it matches exactly
      the names with a suffix, its complement suffix is the suffix with
      the polarity character swapped, and the polarity is +1 exactly when
      that character is + or P. */
  lemma SuffixRuleIs(name: string)
    ensures var k := SuffixLength(name);
      && |SuffixRule(name).1| == k
      && (SuffixRule(name).0 == 0 <==> k == 0)
      && SuffixRule(name).0 in {-1, 0, 1}
      && (k > 0 ==> SuffixRule(name).1 == SwapSuffix(name[|name| - k..]))
      && (k > 0 ==> (SuffixRule(name).0 == 1 <==> PositiveChar(name[|name| - k])))
  {
    var n := |name|;
    var k := SuffixLength(name);
    RightFacts(name);
    if k == 1 {
      assert name[n - 1..] == [name[n - 1]];
    } else if k == 3 {
      assert !PolarityMark(name[n - 1]);
      assert Right(name, 2) == name[n - 2..];
      assert name[n - 3..] == [name[n - 3]] + name[n - 2..];
    } else if k == 2 {
      assert !PolarityMark(name[n - 1]);
      assert !IsNumber(Right(name, 2));
      assert name[n - 2..] == [name[n - 2]] + name[n - 1..];
    } else {
      assert n >= 1 ==> !PolarityMark(name[n - 1]);
    }
  }

  /** matchDpSuffix(aNetName, aComplementNet, aBaseDpName), called with
      the out-parameters holding complement0 and base0. On a match the
      name is base + suffix, the complement is base + the suffix with P/N
      or +/- swapped, and the polarity is +1 exactly when the suffix
      starts with P or +. On no match the out-parameters keep their
      values. */
  function MatchDpSuffix(name: string, complement0: string, base0: string): (r: DpMatch)
    ensures r.polarity in {-1, 0, 1}
    ensures r.polarity == 0 <==> SuffixLength(name) == 0
    ensures r.polarity == 0 ==> r.complement == complement0 && r.base == base0
    ensures r.polarity != 0 ==>
      && |r.base| == |name| - SuffixLength(name)
      && name == r.base + name[|r.base|..]
      && r.complement == r.base + SwapSuffix(name[|r.base|..])
      && (r.polarity == 1 <==> PositiveChar(name[|r.base|]))
  {
    SuffixRuleIs(name);
    var rule := SuffixRule(name);
    if rule.0 == 0 then DpMatch(0, complement0, base0)
    else
      var base := Left(name, |name| - |rule.1|);
      assert name == base + name[|base|..];
      DpMatch(rule.0, base + rule.1, base)
  }

  /** Independent statement of the names with one polarity: the name
      ends in the sign or the letter, or in the letter followed by one
      digit, two digits, or a sign and a digit. */
  predicate EndsPolarity(name: string, sign: char, letter: char) {
    var n := |name|;
    || (n >= 1 && (name[n - 1] == sign || name[n - 1] == letter))
    || (n >= 2 && name[n - 2] == letter && IsDigit(name[n - 1]))
    || (n >= 3 && name[n - 3] == letter && (IsDigit(name[n - 2]) || IsSign(name[n - 2])) && IsDigit(name[n - 1]))
  }

  /** The polarity is +1 exactly for the P/+ names, -1 exactly for the
      N/- names and 0 for the others. No name has both forms, so the order
      of the checks does not change the result. */
  lemma MatchDpSuffixPolarity(name: string, c: string, b: string)
    ensures MatchDpSuffix(name, c, b).polarity == 1 <==> EndsPolarity(name, '+', 'P')
    ensures MatchDpSuffix(name, c, b).polarity == -1 <==> EndsPolarity(name, '-', 'N')
    ensures !(EndsPolarity(name, '+', 'P') && EndsPolarity(name, '-', 'N'))
  {
    var m := MatchDpSuffix(name, c, b);
    var k := SuffixLength(name);
    EndsPolarityAtSuffix(name, '+', 'P');
    EndsPolarityAtSuffix(name, '-', 'N');
    if k > 0 {
      assert |m.base| == |name| - k;
      assert PolarityMark(name[|name| - k]);
    }
  }

  /** A name ends in one polarity exactly when its suffix starts with that
      polarity's sign or letter. */
  lemma EndsPolarityAtSuffix(name: string, sign: char, letter: char)
    requires (sign == '+' && letter == 'P') || (sign == '-' && letter == 'N')
    ensures var k := SuffixLength(name);
      EndsPolarity(name, sign, letter) <==> k > 0 && (name[|name| - k] == sign || name[|name| - k] == letter)
  {
    var n := |name|;
    var k := SuffixLength(name);
    var one := n >= 1 && (name[n - 1] == sign || name[n - 1] == letter);
    var two := n >= 2 && name[n - 2] == letter && IsDigit(name[n - 1]);
    var three := n >= 3 && name[n - 3] == letter && (IsDigit(name[n - 2]) || IsSign(name[n - 2])) && IsDigit(name[n - 1]);
    assert EndsPolarity(name, sign, letter) == (one || two || three);
    if k == 0 {
      assert !one && !two && !three;
    } else if k == 1 {
      assert !IsDigit(name[n - 1]) && !two && !three;
      assert one <==> name[n - k] == sign || name[n - k] == letter;
    } else if k == 3 {
      assert IsDigit(name[n - 1]) && (IsDigit(name[n - 2]) || IsSign(name[n - 2])) && PolarityLetter(name[n - 3]);
      assert !one && !two;
      assert three <==> name[n - k] == sign || name[n - k] == letter;
    } else {
      assert IsDigit(name[n - 1]) && PolarityLetter(name[n - 2]);
      assert !one && !three;
      assert two <==> name[n - k] == sign || name[n - k] == letter;
    }
  }

  /** Swapping the polarity character of a suffix keeps it a suffix of
      the same length, with the other polarity character. */
  lemma SuffixSwapped(base: string, suffix: string)
    requires |suffix| > 0 && SuffixLength(base + suffix) == |suffix|
    ensures SuffixLength(base + SwapSuffix(suffix)) == |suffix|
    ensures SwapSuffix(SwapSuffix(suffix)) == suffix
    ensures |SwapSuffix(suffix)| == |suffix|
    ensures PositiveChar(SwapSuffix(suffix)[0]) <==> !PositiveChar(suffix[0])
  {
    var x := base + suffix;
    var y := base + SwapSuffix(suffix);
    var n := |x|;
    var j := |base|;
    assert |y| == n;
    assert x[j] == suffix[0] && y[j] == SwapChar(suffix[0]);
    assert PolarityMark(suffix[0]);
    assert forall i :: j < i < n ==> y[i] == suffix[i - j] == x[i];
    if |suffix| > 1 {
      assert x[n - 1] == y[n - 1] && IsDigit(y[n - 1]);
      assert |suffix| == 2 ==> !IsDigit(y[n - 2]);
    }
  }

  /** The complement of a matched name matches with the opposite polarity,
      the same base, and the original name as its complement. */
  lemma MatchDpSuffixInvolution(name: string, c: string, b: string, c2: string, b2: string)
    requires MatchDpSuffix(name, c, b).polarity != 0
    ensures var m := MatchDpSuffix(name, c, b);
      var m2 := MatchDpSuffix(m.complement, c2, b2);
      m2 == DpMatch(-m.polarity, name, m.base)
  {
    var m := MatchDpSuffix(name, c, b);
    var j := |m.base|;
    var suffix := name[j..];
    SuffixSwapped(m.base, suffix);
    var m2 := MatchDpSuffix(m.complement, c2, b2);
    assert m.complement[..j] == m.base;
    assert m.complement[j..] == SwapSuffix(suffix);
    assert m2.base == m.base;
    assert m2.complement == m.base + suffix == name;
  }

  /** The example of the source's own comment: CLK_P12 pairs with CLK_N12. */
  lemma MatchDpSuffixTwoDigits()
    ensures MatchDpSuffix("CLK_P12", "", "") == DpMatch(1, "CLK_N12", "CLK_")
  {
    assert "CLK_P12"[4..] == "P12";
  }

  /** A one-character sign suffix. */
  lemma MatchDpSuffixSignForm()
    ensures MatchDpSuffix("USB_D-", "", "") == DpMatch(-1, "USB_D+", "USB_D")
  {
    assert "USB_D-"[5..] == "-";
  }

  /** A letter with one digit. */
  lemma MatchDpSuffixDigitForm()
    ensures MatchDpSuffix("LVDS_N3", "", "") == DpMatch(-1, "LVDS_P3", "LVDS_")
  {
    assert "LVDS_N3"[5..] == "N3";
  }

  /** IsNumber takes a leading sign, so a letter, a sign and a digit is a
      suffix too, and its complement keeps the sign. */
  lemma MatchDpSuffixSignedDigit()
    ensures MatchDpSuffix("XP+1", "", "") == DpMatch(1, "XN+1", "X")
    ensures MatchDpSuffix("XN+1", "", "") == DpMatch(-1, "XP+1", "X")
  {
    assert "XP+1"[1..] == "P+1";
    assert "XN+1"[1..] == "N+1";
  }

  /** A name without a suffix: the out-parameters stay as they were. */
  lemma MatchDpSuffixNoSuffix()
    ensures MatchDpSuffix("GND", "x", "y") == DpMatch(0, "x", "y")
  {
  }

  /** DpCoupledNet(aNet): the code of the net whose name is the complement
      of net aNet's, or -1 when the name has no suffix or the complement
      net does not exist. */
  function DpCoupledNet(board: Board, net: nat): (r: int)
    requires net < |board.nets| && board.nets[net].Some?
    ensures var m := MatchDpSuffix(board.nets[net].value.name, "", "");
      r == if m.polarity != 0 && m.complement in board.netCodes then board.netCodes[m.complement] else -1
  {
    var m := MatchDpSuffix(board.nets[net].value.name, "", "");
    if m.polarity != 0 then
      if m.complement in board.netCodes then board.netCodes[m.complement] else -1
    else -1
  }

  // ---------------------------------------------------------------
  // Router items
  // ---------------------------------------------------------------

  /** What a router item was made from. */
  datatype ParentKind =
    | PadParent(padId: int, drillCircle: bool, drillSize: Size)
    | ViaParent(drill: int)
    | OtherParent

  /** A board item behind a router item, with the name of its net (None
      when it has no net). */
  datatype Parent = Parent(kind: ParentKind, netName: Option<string>)

  /** PNS::ITEM::Kind() as far as the resolver distinguishes it. */
  datatype ItemKind = SolidItem | ViaItem | SegmentItem | OtherItem

  /** A router item: its kind, net code, shape centre and parent. */
  datatype Item = Item(kind: ItemKind, net: int, centre: Point, parent: Option<Parent>)

  /** holeRadius: half the drill of a round-drilled pad behind a solid, or
      of the via behind a via item, truncated as C does; 0 otherwise. */
  function HoleRadius(item: Item): (r: int)
    ensures item.kind == SolidItem && item.parent.Some? && item.parent.value.kind.PadParent?
            && item.parent.value.kind.drillCircle ==>
            r == Half(item.parent.value.kind.drillSize.x)
    ensures item.kind == ViaItem && item.parent.Some? && item.parent.value.kind.ViaParent? ==>
            r == Half(item.parent.value.kind.drill)
    ensures r != 0 ==> item.parent.Some? && (item.kind == SolidItem || item.kind == ViaItem)
  {
    match item.kind
    case SolidItem =>
      if item.parent.Some? && item.parent.value.kind.PadParent? && item.parent.value.kind.drillCircle
      then Half(item.parent.value.kind.drillSize.x) else 0
    case ViaItem =>
      if item.parent.Some? && item.parent.value.kind.ViaParent?
      then Half(item.parent.value.kind.drill) else 0
    case _ => 0
  }

  function SquaredNorm(d: Point): int { d.x * d.x + d.y * d.y }

  lemma SquaredNormNeg(d: Point)
    ensures SquaredNorm(Neg(d)) == SquaredNorm(d)
  {
  }

  // ---------------------------------------------------------------
  // The pad-clearance cache
  // ---------------------------------------------------------------

  /** The clearance a pad gets in the cache: its own if positive, else its
      footprint's if positive, else none (0). */
  function PadRule(moduleClearance: int, pad: Pad): int {
    if pad.localClearance > 0 then pad.localClearance
    else if moduleClearance > 0 then moduleClearance
    else 0
  }

  /** The cache after visiting the pads of one footprint in order. */
  function AddPads(cache: map<int, int>, moduleClearance: int, pads: seq<Pad>): map<int, int>
    decreases |pads|
  {
    if |pads| == 0 then cache
    else
      var c := AddPads(cache, moduleClearance, pads[..|pads| - 1]);
      var p := pads[|pads| - 1];
      var v := PadRule(moduleClearance, p);
      if v > 0 then c[p.id := v] else c
  }

  /** The cache after visiting the footprints in order. */
  function PadCache(modules: seq<Module>): map<int, int>
    decreases |modules|
  {
    if |modules| == 0 then map[]
    else
      var m := modules[|modules| - 1];
      AddPads(PadCache(modules[..|modules| - 1]), m.localClearance, m.pads)
  }

  /** No two pads of the board share an identity (they are distinct objects). */
  predicate UniquePads(modules: seq<Module>) {
    forall i, j, i2, j2 ::
      0 <= i < |modules| && 0 <= j < |modules[i].pads| &&
      0 <= i2 < |modules| && 0 <= j2 < |modules[i2].pads| && (i, j) != (i2, j2) ==>
      modules[i].pads[j].id != modules[i2].pads[j2].id
  }

  predicate IsPadOf(modules: seq<Module>, id: int) {
    exists i, j :: 0 <= i < |modules| && 0 <= j < |modules[i].pads| && modules[i].pads[j].id == id
  }

  lemma {:induction false} AddPadsOther(cache: map<int, int>, mc: int, pads: seq<Pad>, k: int)
    requires forall j :: 0 <= j < |pads| ==> pads[j].id != k
    ensures var c := AddPads(cache, mc, pads);
      (k in c <==> k in cache) && (k in cache ==> c[k] == cache[k])
    decreases |pads|
  {
    if |pads| > 0 {
      AddPadsOther(cache, mc, pads[..|pads| - 1], k);
    }
  }

  lemma {:induction false} AddPadsRule(cache: map<int, int>, mc: int, pads: seq<Pad>, j: nat)
    requires j < |pads|
    requires forall a, b :: 0 <= a < b < |pads| ==> pads[a].id != pads[b].id
    ensures var c := AddPads(cache, mc, pads);
      var v := PadRule(mc, pads[j]);
      (v > 0 ==> pads[j].id in c && c[pads[j].id] == v) &&
      (v <= 0 ==> (pads[j].id in c <==> pads[j].id in cache) &&
                  (pads[j].id in cache ==> c[pads[j].id] == cache[pads[j].id]))
    decreases |pads|
  {
    var n := |pads|;
    if j == n - 1 {
      AddPadsOther(cache, mc, pads[..n - 1], pads[j].id);
    } else {
      AddPadsRule(cache, mc, pads[..n - 1], j);
    }
  }

  /** A key that is no pad of the board is no pad of its first footprints. */
  lemma PrefixPads(modules: seq<Module>, k: int)
    requires |modules| > 0 && !IsPadOf(modules, k)
    ensures !IsPadOf(modules[..|modules| - 1], k)
  {
    var prefix := modules[..|modules| - 1];
    forall i, j | 0 <= i < |prefix| && 0 <= j < |prefix[i].pads|
      ensures prefix[i].pads[j].id != k
    {
      assert prefix[i] == modules[i];
    }
  }

  lemma {:induction false} PadCacheOther(modules: seq<Module>, k: int)
    requires !IsPadOf(modules, k)
    ensures k !in PadCache(modules)
    decreases |modules|
  {
    var n := |modules|;
    if n > 0 {
      var prefix := modules[..n - 1];
      PrefixPads(modules, k);
      PadCacheOther(prefix, k);
      var m := modules[n - 1];
      assert forall j :: 0 <= j < |m.pads| ==> m.pads[j].id != k;
      AddPadsOther(PadCache(prefix), m.localClearance, m.pads, k);
    }
  }

  /** Cache rule of the constructor: for every pad on a board with
      distinct pads, the cache holds the pad's own clearance if it is
      positive, else its footprint's if that is positive, and otherwise
      has no entry for the pad. */
  lemma {:induction false} PadCacheRule(modules: seq<Module>, i: nat, j: nat)
    requires UniquePads(modules)
    requires i < |modules| && j < |modules[i].pads|
    ensures var cache := PadCache(modules);
      var p := modules[i].pads[j];
      (p.localClearance > 0 ==> p.id in cache && cache[p.id] == p.localClearance) &&
      (p.localClearance <= 0 && modules[i].localClearance > 0 ==>
         p.id in cache && cache[p.id] == modules[i].localClearance) &&
      (p.localClearance <= 0 && modules[i].localClearance <= 0 ==> p.id !in cache)
    decreases |modules|
  {
    var n := |modules|;
    var prefix := modules[..n - 1];
    var m := modules[n - 1];
    var p := modules[i].pads[j];
    assert UniquePads(prefix) by {
      forall a, b, a2, b2 |
        0 <= a < |prefix| && 0 <= b < |prefix[a].pads| &&
        0 <= a2 < |prefix| && 0 <= b2 < |prefix[a2].pads| && (a, b) != (a2, b2)
        ensures prefix[a].pads[b].id != prefix[a2].pads[b2].id
      {
        assert prefix[a] == modules[a] && prefix[a2] == modules[a2];
      }
    }
    if i == n - 1 {
      assert forall a, b :: 0 <= a < b < |m.pads| ==> m.pads[a].id != m.pads[b].id;
      AddPadsRule(PadCache(prefix), m.localClearance, m.pads, j);
      assert !IsPadOf(prefix, p.id) by {
        forall a, b | 0 <= a < |prefix| && 0 <= b < |prefix[a].pads|
          ensures prefix[a].pads[b].id != p.id
        {
          assert prefix[a] == modules[a];
        }
      }
      PadCacheOther(prefix, p.id);
    } else {
      assert modules[i] == prefix[i];
      PadCacheRule(prefix, i, j);
      forall b | 0 <= b < |m.pads| ensures m.pads[b].id != p.id {
        assert modules[n - 1].pads[b].id != modules[i].pads[j].id;
      }
      AddPadsOther(PadCache(prefix), m.localClearance, m.pads, p.id);
    }
  }

  // ---------------------------------------------------------------
  // The net-clearance cache
  // ---------------------------------------------------------------

  /** CLEARANCE_ENT. */
  datatype ClearanceEnt = ClearanceEnt(coupledNet: int, dpClearance: int, clearance: int)

  /** A vector entry that resize() value-initialised and nothing filled. */
  const EmptyEnt: ClearanceEnt := ClearanceEnt(0, 0, 0)

  /** The entry the constructor stores for net i. */
  function NetEntry(board: Board, i: nat): (e: ClearanceEnt)
    requires ClassesKnown(board) && i < |board.nets|
    ensures board.nets[i].None? ==> e == EmptyEnt
    ensures board.nets[i].Some? ==>
      var nc := board.netClasses[board.nets[i].value.className];
      e.clearance == nc.clearance && e.dpClearance == nc.diffPairGap && e.coupledNet == DpCoupledNet(board, i)
  {
    if board.nets[i].None? then EmptyEnt
    else
      var nc := board.netClasses[board.nets[i].value.className];
      ClearanceEnt(DpCoupledNet(board, i), nc.diffPairGap, nc.clearance)
  }

  /** The first loop of the constructor: one entry per net code. */
  method BuildNetCache(board: Board) returns (cache: seq<ClearanceEnt>)
    requires ClassesKnown(board)
    ensures |cache| == |board.nets|
    ensures forall i :: 0 <= i < |cache| ==> cache[i] == NetEntry(board, i)
  {
    cache := seq(|board.nets|, _ => EmptyEnt);
    var i := 0;
    while i < |board.nets|
      invariant 0 <= i <= |board.nets| && |cache| == |board.nets|
      invariant forall k :: 0 <= k < i ==> cache[k] == NetEntry(board, k)
      invariant forall k :: i <= k < |cache| ==> cache[k] == EmptyEnt
    {
      if board.nets[i].Some? {
        var ni := board.nets[i].value;
        var nc := board.netClasses[ni.className];
        var ent := ClearanceEnt(DpCoupledNet(board, i), nc.diffPairGap, nc.clearance);
        cache := cache[i := ent];
      }
      i := i + 1;
    }
  }

  /** The second loop of the constructor, over footprints and their pads. */
  method BuildPadCache(modules: seq<Module>) returns (cache: map<int, int>)
    ensures cache == PadCache(modules)
  {
    cache := map[];
    var i := 0;
    while i < |modules|
      invariant 0 <= i <= |modules|
      invariant cache == PadCache(modules[..i])
    {
      var mod := modules[i];
      var moduleClearance := mod.localClearance;
      ghost var before := cache;
      var j := 0;
      while j < |mod.pads|
        invariant 0 <= j <= |mod.pads|
        invariant cache == AddPads(before, moduleClearance, mod.pads[..j])
      {
        var pad := mod.pads[j];
        assert mod.pads[..j + 1][..j] == mod.pads[..j];
        if pad.localClearance > 0 {
          cache := cache[pad.id := pad.localClearance];
        } else if moduleClearance > 0 {
          cache := cache[pad.id := moduleClearance];
        }
        j := j + 1;
      }
      assert mod.pads[..j] == mod.pads;
      assert modules[..i + 1][..i] == modules[..i];
      i := i + 1;
    }
    assert modules[..i] == modules;
  }

  /** The default clearance: the "Default" net class's, else 0.254 mm. */
  function DefaultClearanceOf(board: Board): (r: int)
    ensures "Default" in board.netClasses ==> r == board.netClasses["Default"].clearance
    ensures "Default" !in board.netClasses ==> r == FallbackClearance
  {
    if "Default" in board.netClasses then board.netClasses["Default"].clearance else FallbackClearance
  }

  // ---------------------------------------------------------------
  // The resolver
  // ---------------------------------------------------------------

  /** PNS_PCBNEW_RULE_RESOLVER. Its caches are filled once, by the
      constructor, and only read afterwards. */
  class RuleResolver {
    const board: Board
    const netClearanceCache: seq<ClearanceEnt>
    const localClearanceCache: map<int, int>
    const defaultClearance: int

    constructor (aBoard: Board)
      requires ClassesKnown(aBoard)
      ensures board == aBoard
      ensures |netClearanceCache| == |aBoard.nets|
      ensures forall i :: 0 <= i < |aBoard.nets| ==> netClearanceCache[i] == NetEntry(aBoard, i)
      ensures localClearanceCache == PadCache(aBoard.modules)
      ensures defaultClearance == DefaultClearanceOf(aBoard)
    {
      var nets := BuildNetCache(aBoard);
      var pads := BuildPadCache(aBoard.modules);
      board := aBoard;
      netClearanceCache := nets;
      localClearanceCache := pads;
      if "Default" in aBoard.netClasses {
        defaultClearance := aBoard.netClasses["Default"].clearance;
      } else {
        defaultClearance := FallbackClearance;
      }
    }

    /** The item is made from a pad that has an entry in the pad cache. */
    predicate HasCachedPad(item: Item) {
      item.parent.Some? && item.parent.value.kind.PadParent? &&
      item.parent.value.kind.padId in localClearanceCache
    }

    /** localPadClearance: the cached value of the pad behind the item,
        0 for an item without a pad parent or a pad without an entry. */
    function LocalPadClearance(item: Item): (r: int)
      ensures HasCachedPad(item) ==> r == localClearanceCache[item.parent.value.kind.padId]
      ensures !HasCachedPad(item) ==> r == 0
    {
      if item.parent.None? || !item.parent.value.kind.PadParent? then 0
      else if item.parent.value.kind.padId in localClearanceCache
      then localClearanceCache[item.parent.value.kind.padId]
      else 0
    }

    /** The clearance of one side of Clearance(a, b): a positive pad-local
        value wins; else the net's cached clearance, or the default for an
        item with no net (negative code). */
    function ItemClearance(item: Item): (r: int)
      requires item.net < |netClearanceCache|
      ensures LocalPadClearance(item) > 0 ==> r == LocalPadClearance(item)
      ensures LocalPadClearance(item) <= 0 && item.net >= 0 ==> r == netClearanceCache[item.net].clearance
      ensures LocalPadClearance(item) <= 0 && item.net < 0 ==> r == defaultClearance
    {
      var pad := LocalPadClearance(item);
      if pad > 0 then pad
      else if item.net >= 0 then netClearanceCache[item.net].clearance
      else defaultClearance
    }

    /** Clearance(aA, aB): the larger of the two items' clearances. The
        source indexes the cache without a bound check, so both net codes
        must be below the cache size. */
    function Clearance(a: Item, b: Item): (r: int)
      requires a.net < |netClearanceCache| && b.net < |netClearanceCache|
      ensures r >= ItemClearance(a) && r >= ItemClearance(b)
      ensures r == ItemClearance(a) || r == ItemClearance(b)
    {
      Max(ItemClearance(a), ItemClearance(b))
    }

    /** Clearance(aNetCode): the cached clearance of a net code strictly
        between 0 and the cache size, the default otherwise. */
    function NetClearance(netCode: int): (r: int)
      ensures 0 < netCode < |netClearanceCache| ==> r == netClearanceCache[netCode].clearance
      ensures !(0 < netCode < |netClearanceCache|) ==> r == defaultClearance
    {
      if 0 < netCode < |netClearanceCache| then netClearanceCache[netCode].clearance
      else defaultClearance
    }

    /** CollideHoles (its boolean result): holes at the same centre never
        collide; otherwise two holes collide when their centres are closer
        than the hole-to-hole minimum plus both radii. */
    function CollideHoles(a: Item, b: Item): (r: bool)
      ensures r <==>
        a.centre != b.centre && HoleRadius(a) > 0 && HoleRadius(b) > 0 &&
        SquaredNorm(Sub(b.centre, a.centre)) <
          (board.holeToHoleMin + HoleRadius(a) + HoleRadius(b)) * (board.holeToHoleMin + HoleRadius(a) + HoleRadius(b))
    {
      if a.centre == b.centre then false
      else
        var ra := HoleRadius(a);
        var rb := HoleRadius(b);
        if ra > 0 && rb > 0 then
          var minDist := board.holeToHoleMin + ra + rb;
          SquaredNorm(Sub(b.centre, a.centre)) < minDist * minDist
        else false
    }

    /** DpNetPair: the (P, N) net codes of the pair the item's net belongs
        to, None when the item has no parent or net, the name has no
        suffix, or either net is missing. */
    function DpNetPair(item: Item): (r: Option<(int, int)>)
      ensures r.Some? ==> item.parent.Some? && item.parent.value.netName.Some?
      ensures item.parent.Some? && item.parent.value.netName.Some? ==>
        var name := item.parent.value.netName.value;
        var m := MatchDpSuffix(name, "", "");
        var p := if m.polarity == 1 then name else m.complement;
        var n := if m.polarity == 1 then m.complement else name;
        r == if m.polarity != 0 && p in board.netCodes && n in board.netCodes
             then Some((board.netCodes[p], board.netCodes[n])) else None
    {
      if item.parent.None? || item.parent.value.netName.None? then None
      else
        var nameP := item.parent.value.netName.value;
        var m := MatchDpSuffix(nameP, "", "");
        if m.polarity == 0 then None
        else
          var p := if m.polarity == 1 then nameP else m.complement;
          var n := if m.polarity == 1 then m.complement else nameP;
          if p in board.netCodes && n in board.netCodes
          then Some((board.netCodes[p], board.netCodes[n]))
          else None
    }
  }

  // ---------------------------------------------------------------
  // Properties of the resolver
  // ---------------------------------------------------------------

  /** Clearance(a, b) does not depend on the order of the items. */
  lemma ClearanceSymmetric(r: RuleResolver, a: Item, b: Item)
    requires a.net < |r.netClearanceCache| && b.net < |r.netClearanceCache|
    ensures r.Clearance(a, b) == r.Clearance(b, a)
  {
  }

  /** For an item without a pad override and a net code inside the cache
      other than 0, the two Clearance overloads agree; net 0 and negative
      codes read different values (the cache entry against the default). */
  lemma ClearanceOverloadsAgree(r: RuleResolver, a: Item)
    requires 0 < a.net < |r.netClearanceCache| && r.LocalPadClearance(a) <= 0
    ensures r.ItemClearance(a) == r.NetClearance(a.net)
  {
  }

  /** Hole collision does not depend on the order of the items. */
  lemma CollideHolesSymmetric(r: RuleResolver, a: Item, b: Item)
    ensures r.CollideHoles(a, b) == r.CollideHoles(b, a)
  {
    assert Sub(a.centre, b.centre) == Neg(Sub(b.centre, a.centre));
    SquaredNormNeg(Sub(b.centre, a.centre));
  }

  /** Items of either net of a pair resolve to the same (P, N) pair. */
  lemma DpNetPairSymmetric(r: RuleResolver, a: Item, b: Item)
    requires a.parent.Some? && a.parent.value.netName.Some?
    requires b.parent.Some? && b.parent.value.netName.Some?
    requires MatchDpSuffix(a.parent.value.netName.value, "", "").polarity != 0
    requires b.parent.value.netName.value == MatchDpSuffix(a.parent.value.netName.value, "", "").complement
    ensures r.DpNetPair(a) == r.DpNetPair(b)
  {
    MatchDpSuffixInvolution(a.parent.value.netName.value, "", "", "", "");
  }
}
