/** The group table and what `CompatibilityData` derives from it before any
    table is filled: the parsed member lists, the entity -> group-id index
    (`uma_to_groups`), the group lookup of one entity (`get_uma_groups`) and
    the pair and triple scores of entities (`_calculate_pair_score`,
    `_calculate_triple_score`). */
module GroupIndex {
  import opened Text

  /** The member token that marks an empty slot in a group row. */
  const Placeholder: string := "无"

  /** A row of the group table as read: `组号`, `分数` and the
      comma-separated `成员` text. */
  datatype RawRow = RawRow(id: int, score: int, memberList: string)

  /** A row after its member text is split into names. */
  datatype GroupRow = GroupRow(id: int, score: int, members: seq<string>)

  /** A name as the member parser produces it: no comma, and no whitespace
      at either end. */
  predicate IsName(s: string)
  {
    ',' !in s && (s == [] || (!IsSpace(s[0]) && !IsSpace(s[|s| - 1])))
  }

  /** `[name.strip() for name in x.split(',')]`: one name per comma-separated
      piece, each a name in the sense of `IsName`. */
  function ParseMembers(memberList: string): (names: seq<string>)
    ensures |names| == CountOf(memberList, ',') + 1
    ensures forall i :: 0 <= i < |names| ==> IsName(names[i])
  {
    var parts := Split(memberList, ',');
    StripPiecesAreNames(parts);
    seq(|parts|, i requires 0 <= i < |parts| => Strip(parts[i]))
  }

  /** Stripping pieces that hold no comma gives names. */
  lemma StripPiecesAreNames(parts: seq<string>)
    requires forall i :: 0 <= i < |parts| ==> ',' !in parts[i]
    ensures forall i :: 0 <= i < |parts| ==> IsName(Strip(parts[i]))
  {
    forall i | 0 <= i < |parts| ensures IsName(Strip(parts[i])) {
      StripIsInfix(parts[i]);
    }
  }

  lemma StripKeepsName(s: string)
    requires IsName(s)
    ensures Strip(s) == s
  {
  }

  /** Parsing a comma-joined list of names gives back the names. */
  lemma ParseJoinedMembers(names: seq<string>)
    requires |names| >= 1
    requires forall i :: 0 <= i < |names| ==> IsName(names[i])
    ensures ParseMembers(Join(names, ',')) == names
  {
    SplitJoin(names, ',');
    var parsed := ParseMembers(Join(names, ','));
    forall i | 0 <= i < |names| ensures parsed[i] == names[i] {
      StripKeepsName(names[i]);
    }
  }

  /** `self.df['成员'].apply(...)`: every row keeps its id and score and gets
      its member text parsed. */
  function ParseRows(raw: seq<RawRow>): (rows: seq<GroupRow>)
    ensures |rows| == |raw|
    ensures forall i :: 0 <= i < |rows| ==>
              rows[i].id == raw[i].id && rows[i].score == raw[i].score
              && rows[i].members == ParseMembers(raw[i].memberList)
    ensures AllNames(rows)
  {
    seq(|raw|, i requires 0 <= i < |raw| =>
      GroupRow(raw[i].id, raw[i].score, ParseMembers(raw[i].memberList)))
  }

  /** Every member of every row is a parsed name. */
  ghost predicate AllNames(rows: seq<GroupRow>)
  {
    forall i, m :: 0 <= i < |rows| && m in rows[i].members ==> IsName(m)
  }

  // ---------------------------------------------------------------------
  // The entity -> group-id index

  /** The genuine entities of a member list: every token except the exact
      placeholder. */
  function NamesIn(members: seq<string>): set<string>
  {
    set m | m in members && m != Placeholder
  }

  function MemberNames(rows: seq<GroupRow>): set<string>
  {
    if rows == [] then {}
    else MemberNames(rows[..|rows| - 1]) + NamesIn(rows[|rows| - 1].members)
  }

  /** The ids of the rows that list `e` as a member. */
  function GroupIdsOf(rows: seq<GroupRow>, e: string): set<int>
  {
    if rows == [] then {}
    else
      var last := rows[|rows| - 1];
      GroupIdsOf(rows[..|rows| - 1], e) + (if e in last.members then {last.id} else {})
  }

  /** The index `uma_to_groups` built from `rows`. */
  function IndexOf(rows: seq<GroupRow>): map<string, set<int>>
  {
    map e | e in MemberNames(rows) :: GroupIdsOf(rows, e)
  }

  /** The index of `rows` after the members `ms` of one more row with id
      `id` have been entered. */
  ghost function IndexWith(rows: seq<GroupRow>, id: int, ms: seq<string>): map<string, set<int>>
  {
    map e | e in MemberNames(rows) + NamesIn(ms) ::
      GroupIdsOf(rows, e) + (if e in ms then {id} else {})
  }

  lemma {:induction false} GroupIdsOfAbsent(rows: seq<GroupRow>, e: string)
    requires e != Placeholder && e !in MemberNames(rows)
    ensures GroupIdsOf(rows, e) == {}
  {
    if rows != [] {
      GroupIdsOfAbsent(rows[..|rows| - 1], e);
    }
  }

  /** Entering one more member token into the index. */
  lemma IndexWithAppend(rows: seq<GroupRow>, id: int, ms: seq<string>, m: string)
    ensures m == Placeholder ==> IndexWith(rows, id, ms + [m]) == IndexWith(rows, id, ms)
    ensures m != Placeholder ==>
      var idx := IndexWith(rows, id, ms);
      IndexWith(rows, id, ms + [m]) == idx[m := (if m in idx then idx[m] else {}) + {id}]
  {
    assert NamesIn(ms + [m]) == NamesIn(ms) + NamesIn([m]);
    if m != Placeholder {
      IndexWithAppendName(rows, id, ms, m);
    } else {
      IndexWithAppendPlaceholder(rows, id, ms);
    }
  }

  lemma IndexWithAppendName(rows: seq<GroupRow>, id: int, ms: seq<string>, m: string)
    requires m != Placeholder && NamesIn(ms + [m]) == NamesIn(ms) + NamesIn([m])
    ensures var idx := IndexWith(rows, id, ms);
            IndexWith(rows, id, ms + [m]) == idx[m := (if m in idx then idx[m] else {}) + {id}]
  {
    var idx := IndexWith(rows, id, ms);
    var idx' := IndexWith(rows, id, ms + [m]);
    if m !in idx {
      GroupIdsOfAbsent(rows, m);
    }
    var expected := idx[m := (if m in idx then idx[m] else {}) + {id}];
    assert idx'.Keys == expected.Keys;
    forall e | e in idx' ensures idx'[e] == expected[e] {
    }
  }

  lemma IndexWithAppendPlaceholder(rows: seq<GroupRow>, id: int, ms: seq<string>)
    requires NamesIn(ms + [Placeholder]) == NamesIn(ms) + NamesIn([Placeholder])
    ensures IndexWith(rows, id, ms + [Placeholder]) == IndexWith(rows, id, ms)
  {
    var idx := IndexWith(rows, id, ms);
    var idx' := IndexWith(rows, id, ms + [Placeholder]);
    assert idx'.Keys == idx.Keys;
    forall e | e in idx' ensures idx'[e] == idx[e] {
      MemberNamesExactly(rows, e);
      assert e != Placeholder;
      assert e in ms + [Placeholder] <==> e in ms;
    }
  }

  lemma IndexWithComplete(rows: seq<GroupRow>, i: nat)
    requires i < |rows|
    ensures IndexWith(rows[..i], rows[i].id, rows[i].members) == IndexOf(rows[..i + 1])
    ensures IndexWith(rows[..i], rows[i].id, []) == IndexOf(rows[..i])
  {
    assert rows[..i + 1][..i] == rows[..i];
    assert NamesIn([]) == {};
    var idx, idx' := IndexWith(rows[..i], rows[i].id, []), IndexOf(rows[..i]);
    assert idx.Keys == idx'.Keys;
    forall e | e in idx ensures idx[e] == idx'[e] {
    }
  }

  /** Creating an entry when it is missing and then adding `id` to it. */
  lemma AddedToEntry(before: map<string, set<int>>, after: map<string, set<int>>, k: string, id: int)
    requires after == (if k in before then before else before[k := {}])[k := (if k in before then before[k] else {}) + {id}]
    ensures after == before[k := (if k in before then before[k] else {}) + {id}]
  {
  }

  /** The nested loop of `CompatibilityData.__init__` that fills
      `uma_to_groups`: it computes `IndexOf(rows)`. */
  method BuildIndex(rows: seq<GroupRow>) returns (index: map<string, set<int>>)
    ensures index == IndexOf(rows)
  {
    index := map[];
    for i := 0 to |rows|
      invariant index == IndexOf(rows[..i])
    {
      var row := rows[i];
      IndexWithComplete(rows, i);
      for j := 0 to |row.members|
        invariant index == IndexWith(rows[..i], row.id, row.members[..j])
      {
        var uma := row.members[j];
        assert row.members[..j + 1] == row.members[..j] + [uma];
        IndexWithAppend(rows[..i], row.id, row.members[..j], uma);
        if uma == Placeholder {
          continue;
        }
        ghost var before := index;
        if uma !in index {
          index := index[uma := {}];
        }
        index := index[uma := index[uma] + {row.id}];
        AddedToEntry(before, index, uma, row.id);
      }
      assert row.members[..|row.members|] == row.members;
    }
    assert rows[..|rows|] == rows;
  }

  /** The index keys are exactly the member tokens other than the exact
      placeholder. */
  lemma {:induction false} MemberNamesExactly(rows: seq<GroupRow>, e: string)
    ensures e in MemberNames(rows) <==>
              e != Placeholder && exists i :: 0 <= i < |rows| && e in rows[i].members
  {
    if rows != [] {
      var init := rows[..|rows| - 1];
      MemberNamesExactly(init, e);
      if e != Placeholder && e !in MemberNames(rows) {
        forall i | 0 <= i < |rows| ensures e !in rows[i].members {
          if i < |rows| - 1 { assert rows[i] == init[i]; }
        }
      }
      if e in MemberNames(init) {
        var i :| 0 <= i < |init| && e in init[i].members;
        assert rows[i] == init[i];
      }
    }
  }

  /** The index value of an entity is exactly the set of ids of the rows
      that list it. */
  lemma {:induction false} GroupIdsOfExactly(rows: seq<GroupRow>, e: string, g: int)
    ensures g in GroupIdsOf(rows, e) <==>
              exists i :: 0 <= i < |rows| && rows[i].id == g && e in rows[i].members
  {
    if rows != [] {
      var init := rows[..|rows| - 1];
      GroupIdsOfExactly(init, e, g);
      if g !in GroupIdsOf(rows, e) {
        forall i | 0 <= i < |rows| ensures !(rows[i].id == g && e in rows[i].members) {
          if i < |rows| - 1 { assert rows[i] == init[i]; }
        }
      }
      if g in GroupIdsOf(init, e) {
        var i :| 0 <= i < |init| && init[i].id == g && e in init[i].members;
        assert rows[i] == init[i];
      }
    }
  }

  /** The placeholder is skipped only as an exact token: a name that
      contains it is indexed like any other. */
  lemma PlaceholderSkippedExactly()
    ensures IndexOf([GroupRow(1, 10, ["无", "无声铃鹿"])]) == map["无声铃鹿" := {1}]
  {
    var rows := [GroupRow(1, 10, ["无", "无声铃鹿"])];
    assert rows[..0] == [];
    assert "无" != "无声铃鹿";
    assert NamesIn(["无", "无声铃鹿"]) == {"无声铃鹿"};
    assert MemberNames(rows) == {"无声铃鹿"};
    assert GroupIdsOf(rows, "无声铃鹿") == {1};
  }

  // ---------------------------------------------------------------------
  // Group lookups and scores

  /** `uma_to_groups.get(e, set())`. */
  function GroupIds(index: map<string, set<int>>, e: string): set<int>
  {
    if e in index then index[e] else {}
  }

  /** `df[df['组号'].isin(ids)]`: the rows whose id is in `ids`, in table
      order. */
  function RowsWithIds(rows: seq<GroupRow>, ids: set<int>): (r: seq<GroupRow>)
    ensures |r| <= |rows|
    ensures forall g :: g in r <==> g in rows && g.id in ids
  {
    if rows == [] then []
    else
      var last := rows[|rows| - 1];
      var init := rows[..|rows| - 1];
      assert rows == init + [last];
      RowsWithIds(init, ids) + (if last.id in ids then [last] else [])
  }

  /** `get_uma_groups` (and its copy `get_uma_groups_internal`): the rows of
      the groups `name` belongs to, none for an unknown name. */
  function GetUmaGroups(rows: seq<GroupRow>, index: map<string, set<int>>, name: string): (r: seq<GroupRow>)
    ensures forall g :: g in r <==> g in rows && g.id in GroupIds(index, name)
    ensures name !in index ==> r == []
  {
    if name !in index then [] else RowsWithIds(rows, index[name])
  }

  lemma {:induction false} RowsWithNoIds(rows: seq<GroupRow>)
    ensures RowsWithIds(rows, {}) == []
  {
    if rows != [] { RowsWithNoIds(rows[..|rows| - 1]); }
  }

  lemma GetUmaGroupsFilters(rows: seq<GroupRow>, index: map<string, set<int>>, name: string)
    ensures GetUmaGroups(rows, index, name) == RowsWithIds(rows, GroupIds(index, name))
  {
    if name !in index { RowsWithNoIds(rows); }
  }

  /** `{g['组号'] for g in rows}`. */
  function IdsOf(rows: seq<GroupRow>): set<int>
  {
    if rows == [] then {} else IdsOf(rows[..|rows| - 1]) + {rows[|rows| - 1].id}
  }

  /** The sum of the scores of the rows whose id is in `ids`, in row order. */
  function SumIn(rows: seq<GroupRow>, ids: set<int>): int
  {
    if rows == [] then 0
    else
      var last := rows[|rows| - 1];
      SumIn(rows[..|rows| - 1], ids) + (if last.id in ids then last.score else 0)
  }

  lemma {:induction false} SumInOfFiltered(rows: seq<GroupRow>, a: set<int>, b: set<int>)
    ensures SumIn(RowsWithIds(rows, a), b) == SumIn(rows, a * b)
  {
    if rows != [] {
      var last := rows[|rows| - 1];
      var init := rows[..|rows| - 1];
      SumInOfFiltered(init, a, b);
      var f := RowsWithIds(init, a);
      if last.id in a {
        assert (f + [last])[..|f|] == f;
      } else {
        assert f + [] == f;
      }
    }
  }

  lemma {:induction false} IdsOfFiltered(rows: seq<GroupRow>, a: set<int>)
    ensures IdsOf(RowsWithIds(rows, a)) == a * IdsOf(rows)
  {
    if rows != [] {
      var last := rows[|rows| - 1];
      var init := rows[..|rows| - 1];
      IdsOfFiltered(init, a);
      var f := RowsWithIds(init, a);
      var ri := IdsOf(init);
      assert IdsOf(rows) == ri + {last.id};
      if last.id in a {
        assert RowsWithIds(rows, a) == f + [last];
        IdsOfAppend(f, last);
        IntersectAdded(a, ri, last.id);
      } else {
        assert RowsWithIds(rows, a) == f;
        IntersectSkipped(a, ri, last.id);
      }
    }
  }

  lemma IntersectAdded(a: set<int>, r: set<int>, x: int)
    requires x in a
    ensures (a * r) + {x} == a * (r + {x})
  {
  }

  lemma IntersectSkipped(a: set<int>, r: set<int>, x: int)
    requires x !in a
    ensures a * r == a * (r + {x})
  {
  }

  lemma IdsOfAppend(rows: seq<GroupRow>, row: GroupRow)
    ensures IdsOf(rows + [row]) == IdsOf(rows) + {row.id}
  {
    assert (rows + [row])[..|rows|] == rows;
  }

  /** Ids that no row carries do not change a sum. */
  lemma {:induction false} SumInRestrict(rows: seq<GroupRow>, s: set<int>, t: set<int>)
    requires IdsOf(rows) <= t
    ensures SumIn(rows, s) == SumIn(rows, s * t)
  {
    if rows != [] {
      SumInRestrict(rows[..|rows| - 1], s, t);
    }
  }

  lemma {:induction false} SumInNonNegative(rows: seq<GroupRow>, s: set<int>)
    requires forall i :: 0 <= i < |rows| ==> rows[i].score >= 0
    ensures SumIn(rows, s) >= 0
  {
    if rows != [] {
      SumInNonNegative(rows[..|rows| - 1], s);
    }
  }

  /** The pair score: the scores of the groups whose id both entities carry. */
  function PairScoreOf(rows: seq<GroupRow>, index: map<string, set<int>>, a: string, b: string): int
  {
    SumIn(rows, GroupIds(index, a) * GroupIds(index, b))
  }

  /** The triple score: the scores of the groups whose id all three carry. */
  function TripleScoreOf(rows: seq<GroupRow>, index: map<string, set<int>>, a: string, b: string, c: string): int
  {
    SumIn(rows, GroupIds(index, a) * GroupIds(index, b) * GroupIds(index, c))
  }

  /** Summing over the first entity's group rows those in the common id set
      gives the sum over all rows with a common id. */
  lemma CommonGroupsSum(rows: seq<GroupRow>, a: set<int>, common: set<int>, all: set<int>)
    requires common <= a * IdsOf(rows)
    requires all * IdsOf(rows) == common
    ensures SumIn(RowsWithIds(rows, a), common) == SumIn(rows, all)
  {
    SumInOfFiltered(rows, a, common);
    assert a * common == common;
    SumInRestrict(rows, all, IdsOf(rows));
  }

  lemma PairFromGroups(rows: seq<GroupRow>, index: map<string, set<int>>, uma1: string, uma2: string)
    ensures var g1, g2 := GetUmaGroups(rows, index, uma1), GetUmaGroups(rows, index, uma2);
            SumIn(g1, IdsOf(g1) * IdsOf(g2)) == PairScoreOf(rows, index, uma1, uma2)
  {
    var a, b := GroupIds(index, uma1), GroupIds(index, uma2);
    GetUmaGroupsFilters(rows, index, uma1);
    GetUmaGroupsFilters(rows, index, uma2);
    IdsOfFiltered(rows, a);
    IdsOfFiltered(rows, b);
    var r := IdsOf(rows);
    assert (a * r) * (b * r) == (a * b) * r;
    CommonGroupsSum(rows, a, (a * r) * (b * r), a * b);
  }

  lemma TripleFromGroups(rows: seq<GroupRow>, index: map<string, set<int>>, uma1: string, uma2: string, uma3: string)
    ensures var g1, g2, g3 := GetUmaGroups(rows, index, uma1), GetUmaGroups(rows, index, uma2), GetUmaGroups(rows, index, uma3);
            SumIn(g1, IdsOf(g1) * IdsOf(g2) * IdsOf(g3)) == TripleScoreOf(rows, index, uma1, uma2, uma3)
  {
    var a, b, c := GroupIds(index, uma1), GroupIds(index, uma2), GroupIds(index, uma3);
    GetUmaGroupsFilters(rows, index, uma1);
    GetUmaGroupsFilters(rows, index, uma2);
    GetUmaGroupsFilters(rows, index, uma3);
    IdsOfFiltered(rows, a);
    IdsOfFiltered(rows, b);
    IdsOfFiltered(rows, c);
    var r := IdsOf(rows);
    assert (a * r) * (b * r) * (c * r) == (a * b * c) * r;
    CommonGroupsSum(rows, a, (a * r) * (b * r) * (c * r), a * b * c);
  }

  /** `_calculate_pair_score`: sums, over the first entity's group rows, the
      scores of those whose id is also one of the second entity's. */
  method CalculatePairScore(rows: seq<GroupRow>, index: map<string, set<int>>, uma1: string, uma2: string)
    returns (score: int)
    ensures score == PairScoreOf(rows, index, uma1, uma2)
  {
    score := 0;
    var groups1 := GetUmaGroups(rows, index, uma1);
    var groups2 := GetUmaGroups(rows, index, uma2);
    var groupIds1 := IdsOf(groups1);
    var groupIds2 := IdsOf(groups2);
    var commonGroups := groupIds1 * groupIds2;
    for k := 0 to |groups1|
      invariant score == SumIn(groups1[..k], commonGroups)
    {
      assert groups1[..k + 1][..k] == groups1[..k];
      if groups1[k].id in commonGroups {
        score := score + groups1[k].score;
      }
    }
    assert groups1[..|groups1|] == groups1;
    PairFromGroups(rows, index, uma1, uma2);
  }

  /** `_calculate_triple_score`, and the same computation inlined in
      `process_chunk`: the first entity's group rows whose id all three
      entities carry. */
  method CalculateTripleScore(rows: seq<GroupRow>, index: map<string, set<int>>, uma1: string, uma2: string, uma3: string)
    returns (score: int)
    ensures score == TripleScoreOf(rows, index, uma1, uma2, uma3)
  {
    score := 0;
    var groups1 := GetUmaGroups(rows, index, uma1);
    var groups2 := GetUmaGroups(rows, index, uma2);
    var groups3 := GetUmaGroups(rows, index, uma3);
    var groupIds1 := IdsOf(groups1);
    var groupIds2 := IdsOf(groups2);
    var groupIds3 := IdsOf(groups3);
    var commonGroups := groupIds1 * groupIds2 * groupIds3;
    for k := 0 to |groups1|
      invariant score == SumIn(groups1[..k], commonGroups)
    {
      assert groups1[..k + 1][..k] == groups1[..k];
      if groups1[k].id in commonGroups {
        score := score + groups1[k].score;
      }
    }
    assert groups1[..|groups1|] == groups1;
    TripleFromGroups(rows, index, uma1, uma2, uma3);
  }

  // ---------------------------------------------------------------------
  // The scores in terms of group membership

  /** No two rows share a group id. */
  predicate UniqueIds(rows: seq<GroupRow>)
  {
    forall i, j :: 0 <= i < j < |rows| ==> rows[i].id != rows[j].id
  }

  /** Every name of `names` is a member of `row`. */
  predicate HasAll(row: GroupRow, names: set<string>)
  {
    forall n :: n in names ==> n in row.members
  }

  /** The sum of the scores of the rows that list every name of `names`. */
  function SumContaining(rows: seq<GroupRow>, names: set<string>): int
  {
    if rows == [] then 0
    else
      var last := rows[|rows| - 1];
      SumContaining(rows[..|rows| - 1], names) + (if HasAll(last, names) then last.score else 0)
  }

  lemma {:induction false} SumInMatches(rows: seq<GroupRow>, s: set<int>, names: set<string>)
    requires forall i :: 0 <= i < |rows| ==> (rows[i].id in s <==> HasAll(rows[i], names))
    ensures SumIn(rows, s) == SumContaining(rows, names)
  {
    if rows != [] {
      var init := rows[..|rows| - 1];
      forall i | 0 <= i < |init| ensures init[i].id in s <==> HasAll(init[i], names) {
        assert init[i] == rows[i];
      }
      SumInMatches(init, s, names);
    }
  }

  /** With unique ids, a row's id is among an entity's group ids exactly when
      the row lists the entity. */
  lemma IndexedRow(rows: seq<GroupRow>, e: string, i: nat)
    requires UniqueIds(rows) && e != Placeholder && i < |rows|
    ensures rows[i].id in GroupIds(IndexOf(rows), e) <==> e in rows[i].members
  {
    MemberNamesExactly(rows, e);
    GroupIdsOfExactly(rows, e, rows[i].id);
  }

  /** The pair score is the total score of the groups listing both
      entities, when group ids are unique. */
  lemma PairScoreCountsSharedGroups(rows: seq<GroupRow>, a: string, b: string)
    requires UniqueIds(rows) && a != Placeholder && b != Placeholder
    ensures PairScoreOf(rows, IndexOf(rows), a, b) == SumContaining(rows, {a, b})
  {
    var index := IndexOf(rows);
    forall i | 0 <= i < |rows|
      ensures rows[i].id in GroupIds(index, a) * GroupIds(index, b) <==> HasAll(rows[i], {a, b})
    {
      IndexedRow(rows, a, i);
      IndexedRow(rows, b, i);
    }
    SumInMatches(rows, GroupIds(index, a) * GroupIds(index, b), {a, b});
  }

  /** The triple score is the total score of the groups listing all three
      entities, when group ids are unique. */
  lemma TripleScoreCountsSharedGroups(rows: seq<GroupRow>, a: string, b: string, c: string)
    requires UniqueIds(rows) && a != Placeholder && b != Placeholder && c != Placeholder
    ensures TripleScoreOf(rows, IndexOf(rows), a, b, c) == SumContaining(rows, {a, b, c})
  {
    var index := IndexOf(rows);
    var s := GroupIds(index, a) * GroupIds(index, b) * GroupIds(index, c);
    forall i | 0 <= i < |rows|
      ensures rows[i].id in s <==> HasAll(rows[i], {a, b, c})
    {
      IndexedRow(rows, a, i);
      IndexedRow(rows, b, i);
      IndexedRow(rows, c, i);
    }
    SumInMatches(rows, s, {a, b, c});
  }
}
