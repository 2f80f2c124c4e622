/** The most-recently-used footprint list of pcbnew's footprint chooser
    (s_ModuleHistoryList and AddModuleToHistory in
    pcbnew/load_select_footprint.cpp). */
module FootprintHistory {

  /** s_ModuleHistoryMaxCount. */
  const MaxCount: nat := 8

  /** The list with every occurrence of name removed, order kept. */
  function Without(s: seq<string>, name: string): (r: seq<string>)
    ensures name !in r
    ensures |r| <= |s|
    ensures forall x :: x in r ==> x in s
  {
    if s == [] then []
    else
      assert s == [s[0]] + s[1..];
      (if s[0] == name then [] else [s[0]]) + Without(s[1..], name)
  }

  /** Removing the name keeps every other entry as often as it occurred:
      the result is the old list's multiset with the name's count set to 0. */
  lemma {:induction false} WithoutCounts(s: seq<string>, name: string)
    ensures multiset(Without(s, name)) == multiset(s)[name := 0]
  {
    if s != [] {
      var rest := multiset(s[1..]);
      var tail := Without(s[1..], name);
      WithoutCounts(s[1..], name);
      assert s == [s[0]] + s[1..];
      assert multiset(s) == multiset{s[0]} + rest;
      if s[0] == name {
        assert Without(s, name) == tail;
        assert multiset(s)[name := 0] == rest[name := 0];
      } else {
        assert Without(s, name) == [s[0]] + tail;
        assert multiset(Without(s, name)) == multiset{s[0]} + multiset(tail);
        assert multiset(s)[name := 0] == multiset{s[0]} + rest[name := 0];
      }
    }
  }

  /** Removing the name keeps the order of the other entries: an entry
      before another in the result was before it in the list. */
  lemma {:induction false} WithoutKeepsOrder(s: seq<string>, name: string, i: nat, j: nat)
    requires i < j < |Without(s, name)|
    ensures exists i', j' :: 0 <= i' < j' < |s| && s[i'] == Without(s, name)[i] && s[j'] == Without(s, name)[j]
  {
    var r := Without(s, name);
    var tail := Without(s[1..], name);
    if s[0] == name {
      assert r == tail;
      WithoutKeepsOrder(s[1..], name, i, j);
      var i', j' :| 0 <= i' < j' < |s[1..]| && s[1..][i'] == tail[i] && s[1..][j'] == tail[j];
      assert s[i' + 1] == r[i] && s[j' + 1] == r[j];
    } else {
      assert r == [s[0]] + tail;
      if i == 0 {
        assert tail[j - 1] in s[1..];
        var j' :| 0 <= j' < |s[1..]| && s[1..][j'] == tail[j - 1];
        assert s[0] == r[0] && s[j' + 1] == r[j];
      } else {
        WithoutKeepsOrder(s[1..], name, i - 1, j - 1);
        var i', j' :| 0 <= i' < j' < |s[1..]| && s[1..][i'] == tail[i - 1] && s[1..][j'] == tail[j - 1];
        assert s[i' + 1] == r[i] && s[j' + 1] == r[j];
      }
    }
  }

  /** Where each entry of Without(s, name) came from, as positions of s. */
  function KeptPositions(s: seq<string>, name: string): (f: seq<nat>)
    ensures |f| <= |s|
  {
    if s == [] then []
    else
      var t := Shifted(KeptPositions(s[1..], name));
      if s[0] == name then t else [0] + t
  }

  /** Every position moved one along. */
  function Shifted(t: seq<nat>): (r: seq<nat>)
    ensures |r| == |t| && forall k :: 0 <= k < |t| ==> r[k] == t[k] + 1
  {
    seq(|t|, k requires 0 <= k < |t| => t[k] + 1)
  }

  /** Removing the name keeps the other entries as a subsequence: entry k
      of the result is the entry at position KeptPositions(s, name)[k]. */
  lemma {:induction false} WithoutPositions(s: seq<string>, name: string)
    ensures var f := KeptPositions(s, name); var r := Without(s, name);
      |f| == |r| && forall k :: 0 <= k < |f| ==> f[k] < |s| && s[f[k]] == r[k]
  {
    if s != [] {
      var t := KeptPositions(s[1..], name);
      var u := Without(s[1..], name);
      var sh := Shifted(t);
      WithoutPositions(s[1..], name);
      forall k | 0 <= k < |sh| ensures sh[k] < |s| && s[sh[k]] == u[k] {
        assert s[1..][t[k]] == u[k];
      }
      assert s == [s[0]] + s[1..];
      if s[0] != name {
        var f := [0] + sh;
        assert Without(s, name) == [s[0]] + u;
        assert forall k :: 1 <= k < |f| ==> f[k] == sh[k - 1];
      }
    }
  }

  /** The positions the entries came from are strictly increasing. */
  lemma {:induction false} KeptIncreasing(s: seq<string>, name: string)
    ensures Increasing(KeptPositions(s, name))
  {
    if s != [] {
      KeptIncreasing(s[1..], name);
      var sh := Shifted(KeptPositions(s[1..], name));
      assert Increasing(sh);
      if s[0] != name {
        var f := [0] + sh;
        assert forall k :: 1 <= k < |f| ==> f[k] == sh[k - 1] && f[k] > 0;
        assert Increasing(f);
      }
    }
  }

  predicate Increasing(f: seq<nat>) {
    forall k, l :: 0 <= k < l < |f| ==> f[k] < f[l]
  }

  /** Every position whose entry is not the name is kept. */
  lemma {:induction false} KeptCovers(s: seq<string>, name: string)
    ensures forall p :: 0 <= p < |s| && s[p] != name ==> p in KeptPositions(s, name)
  {
    if s != [] {
      var t := KeptPositions(s[1..], name);
      var sh := Shifted(t);
      KeptCovers(s[1..], name);
      forall p | 1 <= p < |s| && s[p] != name ensures p in sh {
        assert s[1..][p - 1] == s[p];
        var k :| 0 <= k < |t| && t[k] == p - 1;
        assert sh[k] == p;
      }
      assert KeptPositions(s, name) == if s[0] == name then sh else [0] + sh;
    }
  }

  /** The list once AddModuleToHistory(name) has run on it: name moved or
      added to the front, then the tail dropped until fewer than MaxCount
      entries remain. */
  function History(s: seq<string>, name: string): seq<string> {
    var full := [name] + Without(s, name);
    full[..if |full| < MaxCount then |full| else MaxCount - 1]
  }

  /** The name is first and occurs exactly once, and the list holds at
      most MaxCount - 1 entries (the trim loop stops below MaxCount). */
  lemma HistoryFront(s: seq<string>, name: string)
    ensures var r := History(s, name);
      1 <= |r| <= MaxCount - 1 && r[0] == name && multiset(r)[name] == 1
  {
    var w := Without(s, name);
    var r := History(s, name);
    assert r == [name] + r[1..];
    assert r[1..] <= w;
    assert name !in r[1..];
    assert multiset(r) == multiset([name]) + multiset(r[1..]);
  }

  /** The other entries keep their relative order and trimming only drops
      entries from the end: the tail of the new list is a prefix of the
      old list without the name, and it is all of it when that fits. */
  lemma HistoryOrder(s: seq<string>, name: string)
    ensures var r := History(s, name);
      r[1..] <= Without(s, name) &&
      (|Without(s, name)| < MaxCount - 1 ==> r[1..] == Without(s, name))
  {
  }

  /** Adding the most recent name again changes nothing. */
  lemma {:induction false} HistoryIdempotent(s: seq<string>, name: string)
    ensures History(History(s, name), name) == History(s, name)
  {
    var r := History(s, name);
    HistoryFront(s, name);
    assert r == [name] + r[1..];
    WithoutAbsent(r[1..], name);
    WithoutAppendHead(r[1..], name);
  }

  lemma {:induction false} WithoutAbsent(s: seq<string>, name: string)
    requires name !in s
    ensures Without(s, name) == s
  {
    if s != [] {
      assert s[0] != name;
      WithoutAbsent(s[1..], name);
      assert s == [s[0]] + s[1..];
    }
  }

  lemma WithoutAppendHead(s: seq<string>, name: string)
    ensures Without([name] + s, name) == Without(s, name)
  {
    assert ([name] + s)[1..] == s;
  }

  /** s_ModuleHistoryList. */
  class ModuleHistory {
    var entries: seq<string>

    constructor ()
      ensures entries == []
    {
      entries := [];
    }

    /** AddModuleToHistory: remove the duplicates from the back, insert
        the name at the front, then drop the last entry while the list
        holds MaxCount or more. */
    method AddModuleToHistory(name: string)
      modifies this
      ensures entries == History(old(entries), name)
    {
      var list := RemoveDuplicates(entries, name);
      list := [name] + list;
      entries := TrimHistory(list);
    }
  }

  /** The reverse loop of AddModuleToHistory: RemoveAt every index, from
      the last down to 0, whose entry equals the name. */
  method RemoveDuplicates(s: seq<string>, name: string) returns (list: seq<string>)
    ensures list == Without(s, name)
  {
    list := s;
    var ii := |s|;
    while ii > 0
      invariant 0 <= ii <= |s|
      invariant list == s[..ii] + Without(s[ii..], name)
    {
      ii := ii - 1;
      RemoveStep(s, ii, name, list);
      if list[ii] == name {
        list := list[..ii] + list[ii + 1..];
      }
    }
    assert s[0..] == s;
  }

  /** One step of the reverse loop: entry ii is the original one, and
      removing it when it is the name extends the processed tail by one. */
  lemma RemoveStep(s: seq<string>, ii: nat, name: string, list: seq<string>)
    requires ii < |s| && list == s[..ii + 1] + Without(s[ii + 1..], name)
    ensures ii < |list| && list[ii] == s[ii]
    ensures (if list[ii] == name then list[..ii] + list[ii + 1..] else list) == s[..ii] + Without(s[ii..], name)
  {
    WithoutStep(s, ii, name);
    var rest := Without(s[ii + 1..], name);
    var a := s[..ii];
    assert list == a + [s[ii]] + rest;
    RemoveAtMiddle(a, s[ii], rest);
    if s[ii] == name {
      assert Without(s[ii..], name) == rest;
    } else {
      assert Without(s[ii..], name) == [s[ii]] + rest;
      assert a + ([s[ii]] + rest) == a + [s[ii]] + rest;
    }
  }

  /** RemoveAt on the element between two parts leaves the two parts. */
  lemma RemoveAtMiddle(a: seq<string>, x: string, b: seq<string>)
    ensures var l := a + [x] + b; l[..|a|] == a && l[|a| + 1..] == b
  {
    var l := a + [x] + b;
    assert l[..|a|] == a;
    assert l[|a| + 1..] == b;
  }

  lemma WithoutStep(s: seq<string>, i: nat, name: string)
    requires i < |s|
    ensures s[..i + 1] == s[..i] + [s[i]]
    ensures Without(s[i..], name) == (if s[i] == name then [] else [s[i]]) + Without(s[i + 1..], name)
  {
    assert s[i..][1..] == s[i + 1..];
  }

  /** The trim loop of AddModuleToHistory: drop the last entry while the
      list holds MaxCount entries or more. */
  method TrimHistory(full: seq<string>) returns (list: seq<string>)
    ensures list == full[..if |full| < MaxCount then |full| else MaxCount - 1]
  {
    list := full;
    while |list| >= MaxCount
      invariant |list| <= |full| && list == full[..|list|]
      invariant |full| >= MaxCount ==> |list| >= MaxCount - 1
      invariant |full| < MaxCount ==> list == full
      decreases |list|
    {
      list := list[..|list| - 1];
    }
  }
}
