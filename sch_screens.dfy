/** The schematic screen list of eeschema (SCH_SCREENS, and the reference
    count of SCH_SCREEN, in eeschema/sch_screen.cpp): a list of distinct
    screens walked with a cursor, and the queries that walk every item of
    every screen. A screen's draw list is a sequence of items; only the
    markers and the symbols matter to these queries. */
module SchScreen {

  /** MARKER_BASE::TYPEMARKER. */
  datatype MarkerType = MarkerUnspec | MarkerErc | MarkerPcb | MarkerSimul

  /** MARKER_BASE::MARKER_SEVERITY. */
  datatype Severity = SeverityUnspec | SeverityInfo | SeverityWarning | SeverityError

  /** LIB_ID: the library nickname and the symbol name in it. */
  datatype LibId = LibId(nickname: string, itemName: string)

  /** An item of a draw list: a marker (SCH_MARKER_T), a symbol
      (SCH_COMPONENT_T) or anything else. */
  datatype SchItem =
    | Marker(markerType: MarkerType, severity: Severity)
    | Symbol(libId: LibId)
    | OtherItem

  // ---------------------------------------------------------------
  // Counting over draw lists
  // ---------------------------------------------------------------

  /** The marker test of GetMarkerCount: an unspecified type or severity
      matches every marker. */
  predicate MarkerCounted(it: SchItem, t: MarkerType, sev: Severity) {
    it.Marker? && (t == MarkerUnspec || it.markerType == t) &&
    (sev == SeverityUnspec || it.severity == sev)
  }

  function MarkerCountOf(items: seq<SchItem>, t: MarkerType, sev: Severity): nat {
    if items == [] then 0
    else MarkerCountOf(items[..|items| - 1], t, sev) + (if MarkerCounted(items[|items| - 1], t, sev) then 1 else 0)
  }

  predicate HasNick(it: SchItem, nick: string) { it.Symbol? && it.libId.nickname == nick }

  /** The number of symbols whose library nickname is nick. */
  function NickCount(items: seq<SchItem>, nick: string): nat {
    if items == [] then 0
    else NickCount(items[..|items| - 1], nick) + (if HasNick(items[|items| - 1], nick) then 1 else 0)
  }

  function SymbolCount(items: seq<SchItem>): nat {
    if items == [] then 0
    else SymbolCount(items[..|items| - 1]) + (if items[|items| - 1].Symbol? then 1 else 0)
  }

  /** A symbol whose library id is fully defined: it names a library. */
  predicate Named(it: SchItem) { it.Symbol? && it.libId.nickname != "" }

  predicate AnyNamed(items: seq<SchItem>) { exists k :: 0 <= k < |items| && Named(items[k]) }

  /** An item after ChangeSymbolLibNickname: a symbol of library `from`
      now names library `to`, with the same symbol name. */
  function Renamed(it: SchItem, from: string, to: string): SchItem {
    if HasNick(it, from) then Symbol(it.libId.(nickname := to)) else it
  }

  function RenamedAll(items: seq<SchItem>, from: string, to: string): seq<SchItem> {
    seq(|items|, k requires 0 <= k < |items| => Renamed(items[k], from, to))
  }

  // Totals over the draw lists of all screens, in list order.

  function TotalMarkers(ss: seq<seq<SchItem>>, t: MarkerType, sev: Severity): nat {
    if ss == [] then 0 else TotalMarkers(ss[..|ss| - 1], t, sev) + MarkerCountOf(ss[|ss| - 1], t, sev)
  }

  function TotalNick(ss: seq<seq<SchItem>>, nick: string): nat {
    if ss == [] then 0 else TotalNick(ss[..|ss| - 1], nick) + NickCount(ss[|ss| - 1], nick)
  }

  function TotalSymbols(ss: seq<seq<SchItem>>): nat {
    if ss == [] then 0 else TotalSymbols(ss[..|ss| - 1]) + SymbolCount(ss[|ss| - 1])
  }

  predicate AnyNamedIn(ss: seq<seq<SchItem>>) { exists s :: 0 <= s < |ss| && AnyNamed(ss[s]) }

  /** Screen i is the first one holding a symbol that names a library. */
  predicate FirstNamedAt(ss: seq<seq<SchItem>>, i: int) {
    0 <= i < |ss| && AnyNamed(ss[i]) && !AnyNamedIn(ss[..i])
  }

  /** There is a first such screen exactly when some screen holds a named
      symbol, and there is only one. */
  lemma FirstNamedExists(ss: seq<seq<SchItem>>, i: int, j: int)
    ensures FirstNamedAt(ss, i) ==> AnyNamedIn(ss)
    ensures FirstNamedAt(ss, i) && FirstNamedAt(ss, j) ==> i == j
  {
  }

  /** The draw lists once the walk of ChangeSymbolLibNickname has passed
      the first k screens. */
  function RenamedUpTo(ss: seq<seq<SchItem>>, k: int, from: string, to: string): (r: seq<seq<SchItem>>)
    ensures |r| == |ss|
  {
    seq(|ss|, i requires 0 <= i < |ss| => if i < k then RenamedAll(ss[i], from, to) else ss[i])
  }

  lemma RenamedUpToStep(ss: seq<seq<SchItem>>, k: nat, from: string, to: string)
    requires k < |ss|
    ensures RenamedUpTo(ss, k, from, to)[k := RenamedAll(ss[k], from, to)] == RenamedUpTo(ss, k + 1, from, to)
    ensures RenamedUpTo(ss, 0, from, to) == ss
    ensures RenamedUpTo(ss, k, from, to)[k] == ss[k]
  {
  }

  /** One more screen in the walk adds its own counts. */
  lemma MarkersStep(ss: seq<seq<SchItem>>, i: nat, t: MarkerType, sev: Severity)
    requires i < |ss|
    ensures TotalMarkers(ss[..i + 1], t, sev) == TotalMarkers(ss[..i], t, sev) + MarkerCountOf(ss[i], t, sev)
  {
    assert ss[..i + 1][..i] == ss[..i];
  }

  lemma NickStep(ss: seq<seq<SchItem>>, i: nat, nick: string)
    requires i < |ss|
    ensures TotalNick(ss[..i + 1], nick) == TotalNick(ss[..i], nick) + NickCount(ss[i], nick)
  {
    assert ss[..i + 1][..i] == ss[..i];
  }

  lemma SymbolsStep(ss: seq<seq<SchItem>>, i: nat)
    requires i < |ss|
    ensures TotalSymbols(ss[..i + 1]) == TotalSymbols(ss[..i]) + SymbolCount(ss[i])
    ensures AnyNamedIn(ss[..i + 1]) <==> AnyNamedIn(ss[..i]) || AnyNamed(ss[i])
  {
    assert ss[..i + 1][..i] == ss[..i];
    if AnyNamedIn(ss[..i + 1]) {
      var j :| 0 <= j < i + 1 && AnyNamed(ss[..i + 1][j]);
      if j < i {
        assert ss[..i][j] == ss[j];
      }
    }
    if AnyNamedIn(ss[..i]) {
      var j :| 0 <= j < i && AnyNamed(ss[..i][j]);
      assert ss[..i + 1][j] == ss[j];
    }
    assert ss[..i + 1][i] == ss[i];
  }

  /** After renaming `from` to a different `to`, no symbol names `from`
      any more, every such symbol now names `to`, and the list keeps its
      length and its number of symbols. */
  lemma {:induction false} RenameCounts(items: seq<SchItem>, from: string, to: string)
    requires from != to
    ensures |RenamedAll(items, from, to)| == |items|
    ensures NickCount(RenamedAll(items, from, to), from) == 0
    ensures NickCount(RenamedAll(items, from, to), to) == NickCount(items, to) + NickCount(items, from)
    ensures SymbolCount(RenamedAll(items, from, to)) == SymbolCount(items)
  {
    if items != [] {
      var n := |items| - 1;
      assert RenamedAll(items, from, to)[..n] == RenamedAll(items[..n], from, to);
      RenameCounts(items[..n], from, to);
    }
  }

  /** Asking for a type or a severity only narrows the count: it never
      exceeds the number of markers, which never exceeds the list. */
  lemma {:induction false} MarkerCountBounds(items: seq<SchItem>, t: MarkerType, sev: Severity)
    ensures MarkerCountOf(items, t, sev) <= MarkerCountOf(items, MarkerUnspec, sev)
    ensures MarkerCountOf(items, t, sev) <= MarkerCountOf(items, t, SeverityUnspec)
    ensures MarkerCountOf(items, MarkerUnspec, SeverityUnspec) <= |items|
  {
    if items != [] {
      MarkerCountBounds(items[..|items| - 1], t, sev);
    }
  }

  // ---------------------------------------------------------------
  // Loops over one draw list
  // ---------------------------------------------------------------

  /** The inner loop of GetMarkerCount. */
  method CountMarkers(items: seq<SchItem>, t: MarkerType, sev: Severity) returns (count: nat)
    ensures count == MarkerCountOf(items, t, sev)
  {
    count := 0;
    var k := 0;
    while k < |items|
      invariant 0 <= k <= |items| && count == MarkerCountOf(items[..k], t, sev)
    {
      assert items[..k + 1][..k] == items[..k];
      var item := items[k];
      if item.Marker? && (t == MarkerUnspec || item.markerType == t) {
        if sev == SeverityUnspec || sev == item.severity {
          count := count + 1;
        }
      }
      k := k + 1;
    }
    assert items[..k] == items;
  }

  /** The inner loop of ChangeSymbolLibNickname: rename every symbol of
      library `from` and count them. */
  method RenameSymbols(items: seq<SchItem>, from: string, to: string) returns (r: seq<SchItem>, count: nat)
    ensures r == RenamedAll(items, from, to)
    ensures count == NickCount(items, from)
  {
    r := items;
    count := 0;
    var k := 0;
    while k < |r|
      invariant 0 <= k <= |r| == |items|
      invariant r[..k] == RenamedAll(items, from, to)[..k] && r[k..] == items[k..]
      invariant count == NickCount(items[..k], from)
    {
      assert items[..k + 1][..k] == items[..k];
      assert r[k] == items[k..][0];
      var item := r[k];
      if item.Symbol? && item.libId.nickname == from {
        r := r[k := Symbol(item.libId.(nickname := to))];
        count := count + 1;
      }
      k := k + 1;
    }
    assert items[..k] == items;
  }

  /** The inner loop of HasNoFullyDefinedLibIds: stop at the first symbol
      that names a library; otherwise count the symbols. */
  method ScanSymbols(items: seq<SchItem>) returns (named: bool, count: nat)
    ensures named <==> AnyNamed(items)
    ensures !named ==> count == SymbolCount(items)
  {
    count := 0;
    var k := 0;
    while k < |items|
      invariant 0 <= k <= |items| && count == SymbolCount(items[..k])
      invariant forall j :: 0 <= j < k ==> !Named(items[j])
    {
      assert items[..k + 1][..k] == items[..k];
      var item := items[k];
      if item.Symbol? {
        count := count + 1;
        if item.libId.nickname != "" {
          return true, count;
        }
      }
      k := k + 1;
    }
    assert items[..k] == items;
    named := false;
  }

  // ---------------------------------------------------------------
  // Screens
  // ---------------------------------------------------------------

  /** SCH_SCREEN: its reference count and its draw list. */
  class Screen {
    var refCount: nat
    var items: seq<SchItem>

    constructor (drawList: seq<SchItem>)
      ensures refCount == 0 && items == drawList
    {
      refCount, items := 0, drawList;
    }

    method IncRefCount()
      modifies this
      ensures refCount == old(refCount) + 1 && items == old(items)
    {
      refCount := refCount + 1;
    }

    /** DecRefCount: the wxCHECK_RET leaves a count of 0 at 0. */
    method DecRefCount()
      modifies this
      ensures refCount == if old(refCount) == 0 then 0 else old(refCount) - 1
      ensures items == old(items)
    {
      if refCount == 0 {
        return;
      }
      refCount := refCount - 1;
    }
  }

  /** No screen is listed twice. */
  predicate Distinct(ss: seq<Screen>) {
    forall i, j :: 0 <= i < j < |ss| ==> ss[i] != ss[j]
  }

  function ItemsOf(ss: seq<Screen>): (r: seq<seq<SchItem>>)
    reads ss
    ensures |r| == |ss| && forall i :: 0 <= i < |ss| ==> r[i] == ss[i].items
  {
    seq(|ss|, i reads ss requires 0 <= i < |ss| => ss[i].items)
  }

  /** Where GetNext moves the cursor: one step while it is inside the
      list, nowhere once it has reached the end. */
  function NextIndex(i: nat, n: nat): nat {
    if i < n then i + 1 else i
  }

  /** The cursor after k calls of GetNext. */
  function Advance(i: nat, n: nat, k: nat): nat
    decreases k
  {
    if k == 0 then i else Advance(NextIndex(i, n), n, k - 1)
  }

  /** From a cursor inside the list, k calls of GetNext reach index
      min(i + k, n): every screen is visited once, then the cursor stays at
      the end, where GetScreen gives null. */
  lemma {:induction false} AdvanceStops(i: nat, n: nat, k: nat)
    requires i <= n
    decreases k
    ensures Advance(i, n, k) == if i + k <= n then i + k else n
  {
    if k > 0 {
      AdvanceStops(NextIndex(i, n), n, k - 1);
    }
  }

  /** SCH_SCREENS: the screens of a hierarchy, each once, and the cursor
      of GetFirst/GetNext. */
  class Screens {
    var screens: seq<Screen>
    var index: nat

    /** The list holds no screen twice and the cursor is within it or at
        its end. */
    predicate Valid()
      reads this
    {
      index <= |screens| && Distinct(screens)
    }

    /** The draw lists of the screens, in list order. */
    function Items(): (r: seq<seq<SchItem>>)
      reads this, screens
      ensures |r| == |screens|
    {
      ItemsOf(screens)
    }

    /** An empty list (buildScreenList is not part of this model). */
    constructor ()
      ensures screens == [] && index == 0 && Valid()
    {
      screens, index := [], 0;
    }

    /** GetScreen: the screen at the index, null outside the list. */
    function GetScreen(aIndex: int): (r: Screen?)
      reads this
      ensures 0 <= aIndex < |screens| ==> r == screens[aIndex]
      ensures !(0 <= aIndex < |screens|) ==> r == null
    {
      if 0 <= aIndex < |screens| then screens[aIndex] else null
    }

    /** GetFirst: the cursor goes back to 0. */
    method GetFirst() returns (r: Screen?)
      modifies this
      ensures index == 0 && r == GetScreen(0) && screens == old(screens)
    {
      index := 0;
      if |screens| > 0 {
        return screens[0];
      }
      return null;
    }

    /** GetNext: the cursor moves on while it is inside the list. */
    method GetNext() returns (r: Screen?)
      modifies this
      ensures index == NextIndex(old(index), |screens|)
      ensures r == GetScreen(index) && screens == old(screens)
    {
      if index < |screens| {
        index := index + 1;
      }
      return GetScreen(index);
    }

    /** addScreenToList: a null screen or one already listed is ignored,
        any other is appended. */
    method AddScreenToList(aScreen: Screen?)
      requires Valid()
      modifies this
      ensures aScreen == null || aScreen in old(screens) ==> screens == old(screens)
      ensures aScreen != null && aScreen !in old(screens) ==> screens == old(screens) + [aScreen]
      ensures index == old(index) && Valid()
    {
      if aScreen == null {
        return;
      }
      var i := 0;
      while i < |screens|
        invariant 0 <= i <= |screens| && aScreen !in screens[..i]
      {
        if screens[i] == aScreen {
          return;
        }
        assert screens[..i + 1] == screens[..i] + [screens[i]];
        i := i + 1;
      }
      assert screens[..i] == screens;
      screens := screens + [aScreen];
    }

    /** GetMarkerCount: the matching markers of all screens; the walk
        leaves the cursor at the end. */
    method GetMarkerCount(aMarkerType: MarkerType, aSeverity: Severity) returns (count: nat)
      requires Valid()
      modifies this
      ensures count == TotalMarkers(Items(), aMarkerType, aSeverity)
      ensures screens == old(screens) && index == |screens| && Valid()
    {
      count := 0;
      ghost var all := ItemsOf(screens);
      var screen := GetFirst();
      while screen != null
        invariant Valid() && screens == old(screens) && ItemsOf(screens) == all
        invariant screen == GetScreen(index)
        invariant count == TotalMarkers(all[..index], aMarkerType, aSeverity)
        decreases |screens| - index
      {
        var n := CountMarkers(screen.items, aMarkerType, aSeverity);
        MarkersStep(all, index, aMarkerType, aSeverity);
        count := count + n;
        screen := GetNext();
      }
      assert all[..index] == all;
    }

    /** ChangeSymbolLibNickname: every symbol of library aFrom, in every
        screen, now names library aTo; the result is their number. */
    method ChangeSymbolLibNickname(aFrom: string, aTo: string) returns (cnt: nat)
      requires Valid()
      modifies this, screens
      ensures screens == old(screens) && Valid()
      ensures Items() == RenamedUpTo(old(Items()), |screens|, aFrom, aTo)
      ensures forall i :: 0 <= i < |screens| ==> screens[i].refCount == old(screens[i].refCount)
      ensures cnt == TotalNick(old(Items()), aFrom)
      ensures index == |screens|
    {
      cnt := 0;
      ghost var all := ItemsOf(screens);
      ghost var ss := screens;
      var screen := GetFirst();
      while screen != null
        invariant screens == ss && index <= |ss| && |all| == |ss|
        invariant screen == if index < |ss| then ss[index] else null
        invariant ItemsOf(ss) == RenamedUpTo(all, index, aFrom, aTo)
        invariant cnt == TotalNick(all[..index], aFrom)
        invariant forall i :: 0 <= i < |ss| ==> ss[i].refCount == old(ss[i].refCount)
        decreases |ss| - index
      {
        var n := RenameScreen(screens, index, all, aFrom, aTo);
        NickStep(all, index, aFrom);
        cnt := cnt + n;
        ghost var now := ItemsOf(ss);
        screen := GetNext();
        assert ItemsOf(ss) == now;
      }
      assert index == |ss|;
      assert all[..index] == all;
    }

    /** Screen k of a walk whose first k screens are renamed gets renamed
        too, the list holding each screen once so that no other screen
        changes; the result is the number of symbols renamed. */
    static method RenameScreen(ss: seq<Screen>, k: nat, ghost all: seq<seq<SchItem>>, from: string, to: string)
      returns (n: nat)
      requires k < |ss| == |all| && Distinct(ss)
      requires ItemsOf(ss) == RenamedUpTo(all, k, from, to)
      modifies ss[k]
      ensures ItemsOf(ss) == RenamedUpTo(all, k + 1, from, to)
      ensures forall i :: 0 <= i < |ss| ==> ss[i].refCount == old(ss[i].refCount)
      ensures n == NickCount(all[k], from)
    {
      ghost var before := ItemsOf(ss);
      RenamedUpToStep(all, k, from, to);
      var r;
      r, n := RenameSymbols(ss[k].items, from, to);
      ss[k].items := r;
      forall i | 0 <= i < |ss| && i != k
        ensures ss[i].items == before[i]
      {
        assert ss[i] != ss[k];
      }
      assert ItemsOf(ss) == before[k := r];
    }

    /** HasNoFullyDefinedLibIds: true iff there is at least one symbol and
        no symbol names a library. */
    method HasNoFullyDefinedLibIds() returns (r: bool)
      requires Valid()
      modifies this
      ensures r <==> TotalSymbols(Items()) > 0 && !AnyNamedIn(Items())
      ensures screens == old(screens) && Valid()
      ensures !AnyNamedIn(Items()) ==> index == |screens|
      ensures AnyNamedIn(Items()) ==> FirstNamedAt(Items(), index)
    {
      var cnt := 0;
      ghost var all := ItemsOf(screens);
      var screen := GetFirst();
      while screen != null
        invariant Valid() && screens == old(screens) && ItemsOf(screens) == all
        invariant screen == GetScreen(index)
        invariant cnt == TotalSymbols(all[..index]) && !AnyNamedIn(all[..index])
        decreases |screens| - index
      {
        var named, n := ScanSymbols(screen.items);
        SymbolsStep(all, index);
        if named {
          assert FirstNamedAt(all, index);
          FirstNamedExists(all, index, index);
          return false;
        }
        cnt := cnt + n;
        screen := GetNext();
      }
      assert index == |screens|;
      assert all[..index] == all;
      return cnt != 0;
    }
  }
}
