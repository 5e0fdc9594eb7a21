/**
 Moving stored rows to new conversation keys (engine/conversation_migration.py): one table is rewritten pair
 by pair and account by account, and rows already under the new key give way to the rows that are moved there.
*/
module Rekey {
  import opened Common

  /** The key columns besides scope and account are one value, `columns`; `document` is the stored JSON. */
  datatype Row = Row(scope: string, account: string, columns: string, document: string)

  type Rows = map<nat, Row>

  /** Which columns are unique together with the scope: none at all, the other key columns, or nothing more. */
  datatype UniqueWith = RowsHaveIds | KeyColumns | ScopeAlone

  datatype Rekeying = Rekeying(keys: map<string, string>, accounts: map<string, string>)

  datatype Result<T> = Ok(value: T) | ValueError

  function Pairs(keys: map<string, string>): map<string, string> {
    map old' | old' in keys && old' != "" && keys[old'] != "" && old' != keys[old'] :: keys[old']
  }

  /** Neither chains nor two keys becoming one. */
  ghost predicate Unambiguous(keys: map<string, string>) {
    && (forall a | a in keys :: keys[a] !in keys)
    && (forall a, b | a in keys && b in keys && keys[a] == keys[b] :: a == b)
  }

  /** The mapping gives `key` another one, and both are there. */
  predicate Changes(keys: map<string, string>, key: string) {
    key in keys && key != "" && keys[key] != "" && keys[key] != key
  }

  /** `ConversationRekey.__post_init__` */
  method MakeRekeying(keys: map<string, string>, accounts: map<string, string>) returns (result: Result<Rekeying>)
    ensures result.Ok? <==> Unambiguous(Pairs(keys))
    ensures result.Ok? <==> forall a, b | Changes(keys, a) && Changes(keys, b) :: keys[a] != b && (a != b ==> keys[a] != keys[b])
    ensures result.Ok? ==>
              (forall a :: a in result.value.keys <==> a in keys && a != "" && keys[a] != "" && keys[a] != a)
              && forall a | a in result.value.keys :: result.value.keys[a] == keys[a]
    ensures result.Ok? ==> result.value.keys == Pairs(keys)
                           && forall account :: MappedAccount(result.value, account)
                                                == if account in accounts && accounts[account] != "" then accounts[account] else account
  {
    var pairs := Pairs(keys);
    assert forall a :: a in pairs <==> Changes(keys, a);
    if pairs.Values * pairs.Keys != {} {
      var new' :| new' in pairs.Values * pairs.Keys;
      var old' :| old' in pairs && pairs[old'] == new';
      return ValueError;
    }
    if |pairs.Values| != |pairs| {
      if forall a, b | a in pairs && b in pairs && pairs[a] == pairs[b] :: a == b {
        DistinctValues(pairs);
      }
      return ValueError;
    }
    forall a, b | a in pairs && b in pairs && pairs[a] == pairs[b] ensures a == b {
      if a != b {
        SharedValue(pairs, a, b);
      }
    }
    forall a | a in pairs ensures pairs[a] !in pairs {
      assert pairs[a] in pairs.Values && pairs[a] !in pairs.Values * pairs.Keys;
    }
    return Ok(Rekeying(pairs, map a | a in accounts && accounts[a] != "" && a != accounts[a] :: accounts[a]));
  }

  lemma {:induction false} DistinctValues(m: map<string, string>)
    requires forall a, b | a in m && b in m && m[a] == m[b] :: a == b
    ensures |m.Values| == |m|
    decreases |m|
  {
    if m != map[] {
      var k :| k in m;
      var rest := m - {k};
      DistinctValues(rest);
      assert m.Values == rest.Values + {m[k]} by {
        forall v | v in m.Values ensures v in rest.Values + {m[k]} {
          var a :| a in m && m[a] == v;
          assert a != k ==> a in rest;
        }
      }
      assert m[k] !in rest.Values;
      assert m.Keys == rest.Keys + {k};
      assert |m| == |m.Keys| && |rest| == |rest.Keys|;
    } else {
      assert m.Values == {};
    }
  }

  /** Two keys that share a value leave fewer values than keys. */
  lemma SharedValue(m: map<string, string>, a: string, b: string)
    requires a in m && b in m && m[a] == m[b] && a != b
    ensures |m.Values| < |m|
  {
    var rest := m - {a};
    ValuesAtMost(rest);
    assert m.Values == rest.Values by {
      forall v | v in m.Values ensures v in rest.Values {
        var c :| c in m && m[c] == v;
        assert rest[if c == a then b else c] == v;
      }
    }
    assert m.Keys == rest.Keys + {a};
    assert |m| == |m.Keys| && |rest| == |rest.Keys|;
  }

  lemma {:induction false} ValuesAtMost(m: map<string, string>)
    ensures |m.Values| <= |m|
    decreases |m|
  {
    if m == map[] {
      assert m.Values == {};
    } else {
      var k :| k in m;
      var rest := m - {k};
      ValuesAtMost(rest);
      assert m.Values <= rest.Values + {m[k]} by {
        forall v | v in m.Values ensures v in rest.Values + {m[k]} {
          var a :| a in m && m[a] == v;
          assert a != k ==> rest[a] == v;
        }
      }
      SubsetSize(m.Values, rest.Values + {m[k]});
      assert m.Keys == rest.Keys + {k};
      assert |m| == |m.Keys| && |rest| == |rest.Keys|;
    }
  }

  function MappedAccount(rekey: Rekeying, account: string): string {
    if account in rekey.accounts then rekey.accounts[account] else account
  }

  /** How a table is kept: per account or not, its unique key, and how its documents are rewritten. */
  datatype Shape = Shape(perAccount: bool, unique: UniqueWith, rewrite: (string, string, string) -> string)

  /** The rows one statement moves together. */
  datatype Group = Group(scope: string, account: string)

  function GroupOf(shape: Shape, row: Row): Group {
    Group(row.scope, if shape.perAccount then row.account else "")
  }

  function Target(shape: Shape, rekey: Rekeying, g: Group): Group
    requires g.scope in rekey.keys
  {
    Group(rekey.keys[g.scope], if shape.perAccount then MappedAccount(rekey, g.account) else "")
  }

  function KeyColumns'(shape: Shape, row: Row): string {
    if shape.unique.KeyColumns? then row.columns else ""
  }

  /** The unique key of a row. */
  function KeyOf(shape: Shape, row: Row): (Group, string) {
    (GroupOf(shape, row), KeyColumns'(shape, row))
  }

  /** A row moved to its new key. */
  function Moved(shape: Shape, rekey: Rekeying, row: Row): Row
    requires row.scope in rekey.keys
  {
    Row(rekey.keys[row.scope], if shape.perAccount then MappedAccount(rekey, row.account) else row.account, row.columns,
        shape.rewrite(row.document, row.scope, rekey.keys[row.scope]))
  }

  /** What becomes of a row when all keys and accounts are substituted at once. */
  function Image(shape: Shape, rekey: Rekeying, row: Row): Row {
    if row.scope in rekey.keys then Moved(shape, rekey, row) else row
  }

  ghost predicate Unique(shape: Shape, rows: Rows) {
    !shape.unique.RowsHaveIds? ==> forall i, j | i in rows && j in rows && KeyOf(shape, rows[i]) == KeyOf(shape, rows[j]) :: i == j
  }

  // ---- one group ----

  function Sources(shape: Shape, rows: Rows, g: Group): set<nat> {
    set i | i in rows && GroupOf(shape, rows[i]) == g
  }

  function Conflicts(shape: Shape, rekey: Rekeying, rows: Rows, g: Group): set<nat>
    requires g.scope in rekey.keys
  {
    if shape.unique.RowsHaveIds? then {}
    else set i, s | i in rows && s in Sources(shape, rows, g) && GroupOf(shape, rows[i]) == Target(shape, rekey, g)
                    && KeyColumns'(shape, rows[s]) == KeyColumns'(shape, rows[i]) :: i
  }

  /** The rows in the way are deleted, then the group is moved. */
  function AfterGroup(shape: Shape, rekey: Rekeying, rows: Rows, g: Group): Rows
    requires g.scope in rekey.keys
  {
    map i | i in rows && i !in Conflicts(shape, rekey, rows, g) ::
      if GroupOf(shape, rows[i]) == g then Moved(shape, rekey, rows[i]) else rows[i]
  }

  // ---- any number of groups ----

  /** The group of the row was moved, and when. */
  predicate Done(shape: Shape, times: map<Group, nat>, row: Row) {
    GroupOf(shape, row) in times
  }

  /** Row `j` was moved onto the key of row `i` while `i` was there. */
  predicate Displaces(shape: Shape, rekey: Rekeying, rows: Rows, times: map<Group, nat>, j: nat, i: nat)
    requires i in rows && j in rows
  {
    && !shape.unique.RowsHaveIds? && rows[j].scope in rekey.keys && Done(shape, times, rows[j])
    && KeyOf(shape, Image(shape, rekey, rows[j])) == KeyOf(shape, Image(shape, rekey, rows[i]))
    && (rows[i].scope !in rekey.keys
        || (Done(shape, times, rows[i]) && times[GroupOf(shape, rows[i])] < times[GroupOf(shape, rows[j])]))
  }

  ghost predicate Survives(shape: Shape, rekey: Rekeying, rows: Rows, times: map<Group, nat>, i: nat)
    requires i in rows
  {
    forall j | j in rows :: !Displaces(shape, rekey, rows, times, j, i)
  }

  /** The table after the groups in `times` were moved at those times. */
  ghost function Substituted(shape: Shape, rekey: Rekeying, rows: Rows, times: map<Group, nat>): Rows {
    map i | i in rows && Survives(shape, rekey, rows, times, i) ::
      if Done(shape, times, rows[i]) then Image(shape, rekey, rows[i]) else rows[i]
  }

  /** Only groups of old keys are moved, each at its own time before `now`. */
  ghost predicate TimesOk(rekey: Rekeying, times: map<Group, nat>, now: nat) {
    && (forall g | g in times :: g.scope in rekey.keys && times[g] < now)
    && (forall g, h | g in times && h in times && times[g] == times[h] :: g == h)
  }

  /** Where a row is before and after its group is moved. */
  function Current(shape: Shape, rekey: Rekeying, times: map<Group, nat>, row: Row): Row {
    if Done(shape, times, row) then Image(shape, rekey, row) else row
  }

  lemma ImageGroup(shape: Shape, rekey: Rekeying, row: Row)
    ensures row.scope in rekey.keys ==> GroupOf(shape, Image(shape, rekey, row)) == Target(shape, rekey, GroupOf(shape, row))
    ensures row.scope in rekey.keys ==> KeyColumns'(shape, Image(shape, rekey, row)) == KeyColumns'(shape, row)
    ensures row.scope in rekey.keys ==> Image(shape, rekey, row).scope == rekey.keys[row.scope]
  {
  }

  /** At any time the rows of a group that is still to be moved are the original ones. */
  lemma UndoneSources(shape: Shape, rekey: Rekeying, rows: Rows, times: map<Group, nat>, now: nat, g: Group)
    requires Unambiguous(rekey.keys) && TimesOk(rekey, times, now) && g.scope in rekey.keys && g !in times
    ensures Sources(shape, Substituted(shape, rekey, rows, times), g) == Sources(shape, rows, g)
    ensures forall i | i in Sources(shape, rows, g) :: i in Substituted(shape, rekey, rows, times)
                                                       && Substituted(shape, rekey, rows, times)[i] == rows[i]
  {
    hide Image, Moved, KeyOf, TimesOk;
    forall i | i in rows && GroupOf(shape, rows[i]) == g ensures Survives(shape, rekey, rows, times, i) {
    }
    forall i | i in rows && Done(shape, times, rows[i]) && rows[i].scope in rekey.keys
      ensures GroupOf(shape, Image(shape, rekey, rows[i])) != g
    {
      ImageGroup(shape, rekey, rows[i]);
    }
    DoneIsOld(shape, rekey, times, now);
  }

  lemma DoneIsOld(shape: Shape, rekey: Rekeying, times: map<Group, nat>, now: nat)
    requires TimesOk(rekey, times, now)
    ensures forall row: Row :: Done(shape, times, row) ==> row.scope in rekey.keys && times[GroupOf(shape, row)] < now
  {
  }

  /** A row is where group `g` is going to, under the same key as row `source`, exactly if it would be displaced. */
  lemma RowInTheWay(shape: Shape, rekey: Rekeying, times: map<Group, nat>, now: nat, g: Group, source: Row, row: Row)
    requires Unambiguous(rekey.keys) && TimesOk(rekey, times, now) && g.scope in rekey.keys && g !in times && GroupOf(shape, source) == g
    ensures var later := times[g := now];
            (GroupOf(shape, Current(shape, rekey, times, row)) == Target(shape, rekey, g)
             && KeyColumns'(shape, source) == KeyColumns'(shape, Current(shape, rekey, times, row)))
            <==> (KeyOf(shape, Image(shape, rekey, source)) == KeyOf(shape, Image(shape, rekey, row))
                  && (row.scope !in rekey.keys || (Done(shape, later, row) && later[GroupOf(shape, row)] < now)))
  {
    ImageGroup(shape, rekey, source);
    if row.scope in rekey.keys {
      ImageGroup(shape, rekey, row);
    }
    hide Moved;
  }

  /** Row `i`, still there, is in the way of group `g` exactly if moving `g` displaces it. */
  lemma InTheWay(shape: Shape, rekey: Rekeying, rows: Rows, times: map<Group, nat>, now: nat, g: Group, i: nat)
    requires Unambiguous(rekey.keys) && TimesOk(rekey, times, now) && g.scope in rekey.keys && g !in times
    requires i in rows && Survives(shape, rekey, rows, times, i)
    ensures i in Conflicts(shape, rekey, Substituted(shape, rekey, rows, times), g)
            <==> exists j :: j in rows && GroupOf(shape, rows[j]) == g && Displaces(shape, rekey, rows, times[g := now], j, i)
  {
    var before := Substituted(shape, rekey, rows, times);
    assert before[i] == Current(shape, rekey, times, rows[i]);
    UndoneSources(shape, rekey, rows, times, now, g);
    forall j | j in rows && GroupOf(shape, rows[j]) == g
      ensures j in before && before[j] == rows[j] && j in Sources(shape, before, g) && rows[j].scope in rekey.keys
      ensures Displaces(shape, rekey, rows, times[g := now], j, i) <==>
              !shape.unique.RowsHaveIds? && GroupOf(shape, before[i]) == Target(shape, rekey, g)
              && KeyColumns'(shape, before[j]) == KeyColumns'(shape, before[i])
    {
      assert j in Sources(shape, rows, g);
      RowInTheWay(shape, rekey, times, now, g, rows[j], rows[i]);
    }
    assert forall j | j in Sources(shape, before, g) :: j in rows && GroupOf(shape, rows[j]) == g;
    hide Survives, Substituted, Unambiguous, TimesOk, Image, Current, Displaces, Target, KeyColumns', GroupOf, Done;
  }

  /** Rows of other groups are displaced no differently by groups moved before. */
  lemma SameDisplacement(shape: Shape, rekey: Rekeying, rows: Rows, times: map<Group, nat>, now: nat, g: Group, j: nat,
      i: nat)
    requires TimesOk(rekey, times, now) && g !in times && i in rows && j in rows && GroupOf(shape, rows[j]) != g
    ensures Displaces(shape, rekey, rows, times[g := now], j, i) <==> Displaces(shape, rekey, rows, times, j, i)
  {
    hide Image, KeyOf;
  }

  lemma SurvivorStep(shape: Shape, rekey: Rekeying, rows: Rows, times: map<Group, nat>, now: nat, g: Group, i: nat)
    requires Unambiguous(rekey.keys) && TimesOk(rekey, times, now) && g.scope in rekey.keys && g !in times && i in rows
    ensures Survives(shape, rekey, rows, times[g := now], i)
            <==> Survives(shape, rekey, rows, times, i) && i !in Conflicts(shape, rekey, Substituted(shape, rekey, rows, times), g)
  {
    var later := times[g := now];
    forall j | j in rows && GroupOf(shape, rows[j]) != g
      ensures Displaces(shape, rekey, rows, later, j, i) <==> Displaces(shape, rekey, rows, times, j, i)
    {
      SameDisplacement(shape, rekey, rows, times, now, g, j, i);
    }
    forall j | j in rows && GroupOf(shape, rows[j]) == g ensures !Displaces(shape, rekey, rows, times, j, i) {
    }
    if Survives(shape, rekey, rows, times, i) {
      InTheWay(shape, rekey, rows, times, now, g, i);
    }
    hide Displaces, Conflicts, Unambiguous, TimesOk, Substituted;
  }

  lemma ValueStep(shape: Shape, rekey: Rekeying, rows: Rows, times: map<Group, nat>, now: nat, g: Group, i: nat)
    requires Unambiguous(rekey.keys) && TimesOk(rekey, times, now) && g.scope in rekey.keys && g !in times && i in rows
    ensures var row := Current(shape, rekey, times, rows[i]);
            Current(shape, rekey, times[g := now], rows[i]) == if GroupOf(shape, row) == g then Moved(shape, rekey, row) else row
  {
    if rows[i].scope in rekey.keys {
      ImageGroup(shape, rekey, rows[i]);
    }
    hide Moved;
  }

  /** Moving one more group substitutes that group too. */
  lemma GroupSubstitutes(shape: Shape, rekey: Rekeying, rows: Rows, times: map<Group, nat>, now: nat, g: Group)
    requires Unambiguous(rekey.keys) && TimesOk(rekey, times, now) && g.scope in rekey.keys && g !in times
    ensures AfterGroup(shape, rekey, Substituted(shape, rekey, rows, times), g) == Substituted(shape, rekey, rows, times[g := now])
    ensures TimesOk(rekey, times[g := now], now + 1)
  {
    var before, later := Substituted(shape, rekey, rows, times), times[g := now];
    var after, wanted := AfterGroup(shape, rekey, before, g), Substituted(shape, rekey, rows, later);
    hide Survives, Conflicts, Unambiguous, Moved, GroupOf, Image, Done;
    forall i: nat ensures i in after <==> i in wanted {
      if i in rows {
        SurvivorStep(shape, rekey, rows, times, now, g, i);
      }
    }
    forall i | i in after ensures after[i] == wanted[i] {
      ValueStep(shape, rekey, rows, times, now, g, i);
    }
  }

  // ---- the whole table ----

  /** Every row under an old key was moved. */
  ghost predicate AllDone(shape: Shape, rekey: Rekeying, rows: Rows, times: map<Group, nat>) {
    forall i | i in rows && rows[i].scope in rekey.keys :: Done(shape, times, rows[i])
  }

  /** No row is left under an old key, and the surviving rows are the images of all rows under one substitution. */
  lemma NoOldKeyLeft(shape: Shape, rekey: Rekeying, rows: Rows, times: map<Group, nat>, i: nat)
    requires Unambiguous(rekey.keys) && AllDone(shape, rekey, rows, times) && i in Substituted(shape, rekey, rows, times)
    ensures Substituted(shape, rekey, rows, times)[i] == Image(shape, rekey, rows[i])
    ensures Substituted(shape, rekey, rows, times)[i].scope !in rekey.keys
    ensures var was, row := rows[i], Substituted(shape, rekey, rows, times)[i];
            if was.scope !in rekey.keys then row == was
            else
              && row.scope == rekey.keys[was.scope] && row.columns == was.columns
              && row.account == (if shape.perAccount && was.account in rekey.accounts then rekey.accounts[was.account] else was.account)
              && row.document == shape.rewrite(was.document, was.scope, rekey.keys[was.scope])
  {
  }

  /** Row `a` is moved onto the unique key of row `b`. */
  predicate LandsOn(shape: Shape, rekey: Rekeying, a: Row, b: Row) {
    && a.scope in rekey.keys && rekey.keys[a.scope] == b.scope && !shape.unique.RowsHaveIds?
    && (shape.perAccount ==> b.account == if a.account in rekey.accounts then rekey.accounts[a.account] else a.account)
    && (shape.unique.KeyColumns? ==> a.columns == b.columns)
  }

  /** A row that is not under an old key is left alone, or replaced by a row that was moved onto its unique key. */
  lemma OthersStay(shape: Shape, rekey: Rekeying, rows: Rows, times: map<Group, nat>, i: nat)
    requires AllDone(shape, rekey, rows, times) && i in rows && rows[i].scope !in rekey.keys
    ensures i in Substituted(shape, rekey, rows, times) ==> Substituted(shape, rekey, rows, times)[i] == rows[i]
    ensures i !in Substituted(shape, rekey, rows, times) <==> exists j :: j in rows && LandsOn(shape, rekey, rows[j], rows[i])
    ensures rows[i].scope !in rekey.keys.Values ==> i in Substituted(shape, rekey, rows, times)
  {
    if j :| j in rows && LandsOn(shape, rekey, rows[j], rows[i]) {
      assert Displaces(shape, rekey, rows, times, j, i);
      assert rekey.keys[rows[j].scope] in rekey.keys.Values;
    }
  }

  /** The unique key still holds. */
  lemma KeyStaysUnique(shape: Shape, rekey: Rekeying, rows: Rows, times: map<Group, nat>, now: nat)
    requires Unambiguous(rekey.keys) && TimesOk(rekey, times, now) && AllDone(shape, rekey, rows, times) && Unique(shape, rows)
    ensures Unique(shape, Substituted(shape, rekey, rows, times))
  {
    var after := Substituted(shape, rekey, rows, times);
    if !shape.unique.RowsHaveIds? {
      forall i, j | i in after && j in after && KeyOf(shape, after[i]) == KeyOf(shape, after[j]) ensures i == j {
        NoOldKeyLeft(shape, rekey, rows, times, i);
        NoOldKeyLeft(shape, rekey, rows, times, j);
        assert !Displaces(shape, rekey, rows, times, i, j) && !Displaces(shape, rekey, rows, times, j, i);
        hide Substituted, Survives;
        if rows[i].scope in rekey.keys && rows[j].scope in rekey.keys {
          assert GroupOf(shape, rows[i]) == GroupOf(shape, rows[j]);
          SameGroupSameKey(shape, rekey, rows[i], rows[j]);
        }
      }
    }
  }

  lemma SameGroupSameKey(shape: Shape, rekey: Rekeying, a: Row, b: Row)
    requires a.scope in rekey.keys && GroupOf(shape, a) == GroupOf(shape, b)
    requires KeyOf(shape, Image(shape, rekey, a)) == KeyOf(shape, Image(shape, rekey, b))
    ensures KeyOf(shape, a) == KeyOf(shape, b)
  {
  }

  /**
   The order of the pairs never matters: the result depends only on the order in which the accounts of one
   and the same old key were moved.
  */
  lemma PairOrderIsIrrelevant(shape: Shape, rekey: Rekeying, rows: Rows, a: map<Group, nat>, b: map<Group, nat>)
    requires Unambiguous(rekey.keys) && AllDone(shape, rekey, rows, a) && AllDone(shape, rekey, rows, b)
    requires forall g, h | g in a && h in a && g in b && h in b && g.scope == h.scope :: a[g] < a[h] <==> b[g] < b[h]
    ensures Substituted(shape, rekey, rows, a) == Substituted(shape, rekey, rows, b)
  {
    forall i, j | i in rows && j in rows
      ensures Displaces(shape, rekey, rows, a, j, i) <==> Displaces(shape, rekey, rows, b, j, i)
    {
      if rows[i].scope in rekey.keys && rows[j].scope in rekey.keys {
        ImageGroup(shape, rekey, rows[i]);
        ImageGroup(shape, rekey, rows[j]);
      }
      hide Image, Moved;
    }
    forall i | i in rows ensures Survives(shape, rekey, rows, a, i) <==> Survives(shape, rekey, rows, b, i) {
    }
    hide Displaces, Survives, Image;
  }

  /**
   While no two accounts of one old key become one, no moved row is ever lost, whatever the order of pairs
   and accounts.
  */
  lemma MovedRowsSurvive(shape: Shape, rekey: Rekeying, rows: Rows, times: map<Group, nat>, now: nat, i: nat)
    requires Unambiguous(rekey.keys) && TimesOk(rekey, times, now) && Unique(shape, rows) && i in rows && rows[i].scope in rekey.keys
    requires forall j | j in rows && rows[j].scope == rows[i].scope && MappedAccount(rekey, rows[j].account) == MappedAccount(rekey, rows[i].account) ::
               rows[j].account == rows[i].account
    ensures i in Substituted(shape, rekey, rows, times)
  {
    forall j | j in rows ensures !Displaces(shape, rekey, rows, times, j, i) {
      if rows[j].scope in rekey.keys && KeyOf(shape, Image(shape, rekey, rows[j])) == KeyOf(shape, Image(shape, rekey, rows[i])) {
        ImageGroup(shape, rekey, rows[i]);
        ImageGroup(shape, rekey, rows[j]);
        assert GroupOf(shape, rows[i]) == GroupOf(shape, rows[j]);
      }
    }
  }

  /** Of the rows of two accounts that become one under the same unique key, the one moved later stays. */
  lemma LaterAccountWins(shape: Shape, rekey: Rekeying, rows: Rows, times: map<Group, nat>, i: nat, j: nat)
    requires AllDone(shape, rekey, rows, times) && i in rows && j in rows && !shape.unique.RowsHaveIds?
    requires rows[i].scope in rekey.keys && rows[j].scope in rekey.keys
    requires KeyOf(shape, Image(shape, rekey, rows[i])) == KeyOf(shape, Image(shape, rekey, rows[j]))
    requires times[GroupOf(shape, rows[i])] < times[GroupOf(shape, rows[j])]
    ensures i !in Substituted(shape, rekey, rows, times)
  {
    assert Displaces(shape, rekey, rows, times, j, i);
  }

  /** The UPDATE of the stored documents, and that of the key columns. */
  function Rewritten(shape: Shape, rows: Rows, sources: set<nat>, oldKey: string, newKey: string): Rows {
    map i | i in rows :: if i in sources then rows[i].(document := shape.rewrite(rows[i].document, oldKey, newKey)) else rows[i]
  }

  function Rescoped(shape: Shape, rows: Rows, sources: set<nat>, newKey: string, account: string): Rows {
    map i | i in rows ::
      if i in sources then rows[i].(scope := newKey, account := if shape.perAccount then account else rows[i].account) else rows[i]
  }

  lemma GroupInSteps(shape: Shape, rekey: Rekeying, rows: Rows, g: Group)
    requires g.scope in rekey.keys && Unambiguous(rekey.keys)
    ensures var left := rows - Conflicts(shape, rekey, rows, g);
            var sources, newKey := Sources(shape, left, g), rekey.keys[g.scope];
            && sources == Sources(shape, rows, g)
            && Rescoped(shape, Rewritten(shape, left, sources, g.scope, newKey), sources, newKey, Target(shape, rekey, g).account)
               == AfterGroup(shape, rekey, rows, g)
  {
    ConflictsAreOthers(shape, rekey, rows, g);
    hide Conflicts, Unambiguous;
  }

  class ConversationTable {
    const shape: Shape
    var rows: Rows

    constructor (shape: Shape, rows: Rows)
      ensures this.shape == shape && this.rows == rows
    {
      this.shape, this.rows := shape, rows;
    }

    /** `_rekey_sqlite_group`: DELETE what is in the way, rewrite the documents, UPDATE the key columns. */
    method RekeyGroup(rekey: Rekeying, g: Group) returns (moved: nat, replaced: nat)
      requires g.scope in rekey.keys && Unambiguous(rekey.keys)
      modifies this
      ensures rows == AfterGroup(shape, rekey, old(rows), g)
      ensures moved == |Sources(shape, old(rows), g)| && replaced == |Conflicts(shape, rekey, old(rows), g)|
      ensures |rows| == |old(rows)| - replaced
    {
      hide AfterGroup, Conflicts, Sources, Unambiguous, Moved, GroupOf;
      var newKey, target := rekey.keys[g.scope], Target(shape, rekey, g);
      var inTheWay := Conflicts(shape, rekey, rows, g);
      replaced := |inTheWay|;
      ConflictsAreOthers(shape, rekey, rows, g);
      GroupInSteps(shape, rekey, rows, g);
      RowsLeft(rows, inTheWay);
      rows := rows - inTheWay;
      var sources := Sources(shape, rows, g);
      moved := |sources|;
      rows := Rewritten(shape, rows, sources, g.scope, newKey);
      rows := Rescoped(shape, rows, sources, newKey, target.account);
      SameSize(rows, old(rows) - inTheWay);
    }

    /** `rekey_sqlite_table`: one pair after another, and within a pair one account after another. */
    method RekeyTable(rekey: Rekeying) returns (moved: nat, replaced: nat, ghost times: map<Group, nat>, ghost now: nat)
      requires Unambiguous(rekey.keys)
      modifies this
      ensures TimesOk(rekey, times, now) && AllDone(shape, rekey, old(rows), times)
      ensures rows == Substituted(shape, rekey, old(rows), times)
      ensures |rows| == |old(rows)| - replaced && moved == |set i | i in old(rows) && old(rows)[i].scope in rekey.keys|
    {
      hide Substituted, AfterGroup, Conflicts, Unambiguous, GroupOf;
      moved, replaced, times, now := 0, 0, map[], 0;
      NothingDone(shape, rekey, rows);
      var todo := rekey.keys.Keys;
      while todo != {}
        invariant todo <= rekey.keys.Keys && TimesOk(rekey, times, now)
        invariant rows == Substituted(shape, rekey, old(rows), times) && |rows| == |old(rows)| - replaced
        invariant moved == |DoneRows(shape, old(rows), times)|
        invariant forall g | g in times :: g.scope !in todo
        invariant forall i | i in old(rows) && old(rows)[i].scope in rekey.keys.Keys - todo :: Done(shape, times, old(rows)[i])
        decreases todo
      {
        var scope :| scope in todo;
        todo := todo - {scope};
        var accounts: set<string> := if shape.perAccount then set i | i in rows && rows[i].scope == scope :: rows[i].account else {""};
        AccountsOfScope(shape, rekey, old(rows), times, now, scope);
        var left := accounts;
        while left != {}
          invariant left <= accounts && TimesOk(rekey, times, now)
          invariant rows == Substituted(shape, rekey, old(rows), times) && |rows| == |old(rows)| - replaced
          invariant moved == |DoneRows(shape, old(rows), times)|
          invariant forall g | g in times :: g.scope !in todo && (g.scope == scope ==> g.account !in left)
          invariant forall i | i in old(rows) && old(rows)[i].scope in rekey.keys.Keys - todo - {scope} :: Done(shape, times, old(rows)[i])
          invariant forall account | account in accounts - left :: Group(scope, account) in times
          decreases left
        {
          var account :| account in left;
          left := left - {account};
          var g := Group(scope, account);
          GroupSubstitutes(shape, rekey, old(rows), times, now, g);
          UndoneSources(shape, rekey, old(rows), times, now, g);
          MoreDone(shape, old(rows), times, now, g);
          var m, r := RekeyGroup(rekey, g);
          moved, replaced := moved + m, replaced + r;
          times, now := times[g := now], now + 1;
        }
      }
      AllRowsDone(shape, rekey, old(rows), times, now);
    }
  }

  function DoneRows(shape: Shape, rows: Rows, times: map<Group, nat>): set<nat> {
    set i | i in rows && Done(shape, times, rows[i])
  }

  lemma MoreDone(shape: Shape, rows: Rows, times: map<Group, nat>, now: nat, g: Group)
    requires g !in times
    ensures |DoneRows(shape, rows, times[g := now])| == |DoneRows(shape, rows, times)| + |Sources(shape, rows, g)|
  {
    assert DoneRows(shape, rows, times[g := now]) == DoneRows(shape, rows, times) + Sources(shape, rows, g);
    assert DoneRows(shape, rows, times) !! Sources(shape, rows, g);
  }

  lemma AllRowsDone(shape: Shape, rekey: Rekeying, rows: Rows, times: map<Group, nat>, now: nat)
    requires TimesOk(rekey, times, now) && AllDone(shape, rekey, rows, times)
    ensures DoneRows(shape, rows, times) == set i | i in rows && rows[i].scope in rekey.keys
  {
  }

  lemma ConflictsAreOthers(shape: Shape, rekey: Rekeying, rows: Rows, g: Group)
    requires g.scope in rekey.keys && Unambiguous(rekey.keys)
    ensures Conflicts(shape, rekey, rows, g) <= rows.Keys && Conflicts(shape, rekey, rows, g) !! Sources(shape, rows, g)
  {
  }

  lemma RowsLeft(rows: Rows, removed: set<nat>)
    requires removed <= rows.Keys
    ensures |rows - removed| == |rows| - |removed|
  {
    assert (rows - removed).Keys == rows.Keys - removed;
    assert |rows.Keys| == |rows| && |(rows - removed).Keys| == |rows - removed|;
  }

  lemma SameSize(a: Rows, b: Rows)
    requires a.Keys == b.Keys
    ensures |a| == |b|
  {
    assert |a.Keys| == |a| && |b.Keys| == |b|;
  }

  lemma NothingDone(shape: Shape, rekey: Rekeying, rows: Rows)
    ensures Substituted(shape, rekey, rows, map[]) == rows
  {
  }

  /** The accounts found in the table under an old key that is still to be moved are those of the original rows. */
  lemma AccountsOfScope(shape: Shape, rekey: Rekeying, rows: Rows, times: map<Group, nat>, now: nat, scope: string)
    requires Unambiguous(rekey.keys) && TimesOk(rekey, times, now) && scope in rekey.keys && forall g | g in times :: g.scope != scope
    ensures var accounts := if shape.perAccount
                            then set i | i in Substituted(shape, rekey, rows, times) && Substituted(shape, rekey, rows, times)[i].scope == scope
                                         :: Substituted(shape, rekey, rows, times)[i].account
                            else {""};
            forall i | i in rows && rows[i].scope == scope :: GroupOf(shape, rows[i]).account in accounts
                                                             && GroupOf(shape, rows[i]) == Group(scope, GroupOf(shape, rows[i]).account)
  {
    forall i | i in rows && rows[i].scope == scope
      ensures i in Substituted(shape, rekey, rows, times) && Substituted(shape, rekey, rows, times)[i] == rows[i]
    {
      UndoneSources(shape, rekey, rows, times, now, GroupOf(shape, rows[i]));
      assert i in Sources(shape, rows, GroupOf(shape, rows[i]));
    }
  }
}
