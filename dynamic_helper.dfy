/** `DynamicHelper.ToDictionary`: turns a dynamic query row (its property
    descriptors, in column order) into a dictionary, keeping only the first of
    any columns whose names are equal ignoring case. */
module DynamicHelper {
  import opened Values
  import opened Text

  /** One property descriptor of a row: the column name and its value. */
  type Column = (string, Value)

  /** No earlier column has a name equal to column i's, ignoring case. */
  ghost predicate IsFirst(cols: seq<Column>, i: int)
    requires 0 <= i < |cols|
  {
    forall j :: 0 <= j < i ==> !EqualsIgnoreCase(cols[j].0, cols[i].0)
  }

  /** The dictionary holds exactly the first occurrence of each name, ignoring
      case, under its own spelling and with its own value. */
  ghost predicate IsFirstWins(cols: seq<Column>, d: map<string, Value>) {
    && (forall k :: k in d ==> exists j :: 0 <= j < |cols| && IsFirst(cols, j) && cols[j].0 == k)
    && (forall j :: 0 <= j < |cols| && IsFirst(cols, j) ==> cols[j].0 in d && d[cols[j].0] == cols[j].1)
  }

  predicate ContainsIgnoreCase(known: seq<string>, name: string) {
    exists k :: k in known && EqualsIgnoreCase(k, name)
  }

  /** `Dictionary.Add`, which throws on a key already present. */
  function Add(d: map<string, Value>, key: string, value: Value): (r: map<string, Value>)
    requires key !in d
    ensures r.Keys == d.Keys + {key} && |r| == |d| + 1
    ensures r[key] == value && forall k :: k in d ==> r[k] == d[k]
  {
    d[key := value]
  }

  /** The dictionary after visiting the columns in order, each added unless a
      key equal to its name ignoring case is already present. */
  function FirstWinsMap(cols: seq<Column>): map<string, Value>
    decreases |cols|
  {
    if cols == [] then map[]
    else
      var d := FirstWinsMap(cols[..|cols| - 1]);
      var (name, value) := cols[|cols| - 1];
      if exists k :: k in d && EqualsIgnoreCase(k, name) then d else d[name := value]
  }

  method ToDictionary(props: seq<Column>) returns (dictionary: map<string, Value>)
    ensures dictionary == FirstWinsMap(props)
    ensures IsFirstWins(props, dictionary)
  {
    dictionary := map[];
    var knownColumns: seq<string> := [];
    for i := 0 to |props|
      invariant dictionary == FirstWinsMap(props[..i])
      invariant forall k :: k in knownColumns <==> k in dictionary
    {
      assert props[..i + 1][..i] == props[..i];
      var name := props[i].0;
      if ContainsIgnoreCase(knownColumns, name) {
        continue;
      }
      var obj := props[i].1;
      dictionary := Add(dictionary, name, obj);
      knownColumns := knownColumns + [name];
    }
    assert props[..|props|] == props;
    FirstWinsMapCorrect(props);
  }

  /** Each name of `cols` is matched ignoring case by a key of a first-wins dictionary. */
  lemma Covered(cols: seq<Column>, d: map<string, Value>, j: int)
    requires IsFirstWins(cols, d) && 0 <= j < |cols|
    ensures exists k :: k in d && EqualsIgnoreCase(k, cols[j].0)
  {
    var f := FirstMatch(cols, cols[j].0);
    assert IsFirst(cols, f);
    assert cols[f].0 in d;
  }

  /** The dictionary the visit builds keeps exactly the first occurrences. */
  lemma {:induction false} FirstWinsMapCorrect(cols: seq<Column>)
    ensures IsFirstWins(cols, FirstWinsMap(cols))
    decreases |cols|
  {
    if cols != [] {
      var n := |cols| - 1;
      FirstWinsMapCorrect(cols[..n]);
      assert cols == cols[..n] + [cols[n]];
      if exists k :: k in FirstWinsMap(cols[..n]) && EqualsIgnoreCase(k, cols[n].0) {
        SkipKnown(cols[..n], FirstWinsMap(cols[..n]), cols[n]);
      } else {
        AddNew(cols[..n], FirstWinsMap(cols[..n]), cols[n]);
      }
    }
  }

  /** Whether a column is a first occurrence depends only on the columns before it. */
  lemma IsFirstExtend(init: seq<Column>, c: Column, j: int)
    requires 0 <= j < |init|
    ensures IsFirst(init, j) == IsFirst(init + [c], j)
  {
    assert forall i :: 0 <= i <= j ==> (init + [c])[i] == init[i];
  }

  /** A column whose name a key already matches is not a first occurrence. */
  lemma SkipKnown(init: seq<Column>, d: map<string, Value>, c: Column)
    requires IsFirstWins(init, d)
    requires exists k :: k in d && EqualsIgnoreCase(k, c.0)
    ensures IsFirstWins(init + [c], d)
  {
    var cols := init + [c];
    var n := |init|;
    var k :| k in d && EqualsIgnoreCase(k, c.0);
    var w :| 0 <= w < n && IsFirst(init, w) && init[w].0 == k;
    assert !IsFirst(cols, n) by {
      assert cols[w] == init[w];
      assert EqualsIgnoreCase(cols[w].0, cols[n].0);
    }
    forall key | key in d
      ensures exists j :: 0 <= j < |cols| && IsFirst(cols, j) && cols[j].0 == key
    {
      var j :| 0 <= j < n && IsFirst(init, j) && init[j].0 == key;
      IsFirstExtend(init, c, j);
      assert cols[j] == init[j];
    }
    forall j | 0 <= j < |cols| && IsFirst(cols, j)
      ensures cols[j].0 in d && d[cols[j].0] == cols[j].1
    {
      IsFirstExtend(init, c, j);
      assert cols[j] == init[j];
    }
  }

  /** A column whose name no key matches is a first occurrence and is added. */
  lemma AddNew(init: seq<Column>, d: map<string, Value>, c: Column)
    requires IsFirstWins(init, d)
    requires !exists k :: k in d && EqualsIgnoreCase(k, c.0)
    ensures IsFirstWins(init + [c], d[c.0 := c.1])
  {
    var cols := init + [c];
    var n := |init|;
    forall j | 0 <= j < n ensures IsFirst(init, j) == IsFirst(cols, j) {
      IsFirstExtend(init, c, j);
    }
    forall j | 0 <= j < n ensures !EqualsIgnoreCase(cols[j].0, c.0) {
      Covered(init, d, j);
    }
    assert IsFirst(cols, n);
  }

  /** A first-wins dictionary is determined by its row. */
  lemma FirstWinsUnique(cols: seq<Column>, d1: map<string, Value>, d2: map<string, Value>)
    requires IsFirstWins(cols, d1) && IsFirstWins(cols, d2)
    ensures d1 == d2
  {
    forall k | k in d1 ensures k in d2 && d2[k] == d1[k] {
      var j :| 0 <= j < |cols| && IsFirst(cols, j) && cols[j].0 == k;
    }
    forall k | k in d2 ensures k in d1 {
      var j :| 0 <= j < |cols| && IsFirst(cols, j) && cols[j].0 == k;
    }
  }

  /** The first column whose name equals `name` ignoring case. */
  function FirstMatch(cols: seq<Column>, name: string): (r: nat)
    requires exists i :: 0 <= i < |cols| && EqualsIgnoreCase(cols[i].0, name)
    ensures r < |cols| && EqualsIgnoreCase(cols[r].0, name)
    ensures forall j :: 0 <= j < r ==> !EqualsIgnoreCase(cols[j].0, name)
    decreases |cols|
  {
    if EqualsIgnoreCase(cols[0].0, name) then 0
    else
      assert exists i :: 0 <= i < |cols[1..]| && EqualsIgnoreCase(cols[1..][i].0, name) by {
        var i :| 0 <= i < |cols| && EqualsIgnoreCase(cols[i].0, name);
        assert i > 0 && cols[1..][i - 1] == cols[i];
      }
      1 + FirstMatch(cols[1..], name)
  }

  /** No two keys of the result are equal ignoring case. */
  lemma NoCaseDuplicates(cols: seq<Column>, d: map<string, Value>)
    requires IsFirstWins(cols, d)
    ensures forall k1, k2 :: k1 in d && k2 in d && EqualsIgnoreCase(k1, k2) ==> k1 == k2
  {
    forall k1, k2 | k1 in d && k2 in d && k1 != k2 ensures !EqualsIgnoreCase(k1, k2) {
      var j1 :| 0 <= j1 < |cols| && IsFirst(cols, j1) && cols[j1].0 == k1;
      var j2 :| 0 <= j2 < |cols| && IsFirst(cols, j2) && cols[j2].0 == k2;
      FirstsDiffer(cols, j1, j2);
    }
  }

  /** Two different first occurrences have names that differ ignoring case. */
  lemma FirstsDiffer(cols: seq<Column>, j1: int, j2: int)
    requires 0 <= j1 < |cols| && 0 <= j2 < |cols| && j1 != j2
    requires IsFirst(cols, j1) && IsFirst(cols, j2)
    ensures !EqualsIgnoreCase(cols[j1].0, cols[j2].0)
  {
    if j1 < j2 {
      assert !EqualsIgnoreCase(cols[j1].0, cols[j2].0);
    } else {
      assert !EqualsIgnoreCase(cols[j2].0, cols[j1].0);
    }
  }

  /** Every input name is matched, ignoring case, by exactly one key: the
      spelling of its first occurrence, paired with that occurrence's value. */
  lemma FirstOccurrenceKept(cols: seq<Column>, d: map<string, Value>, i: int)
    requires IsFirstWins(cols, d)
    requires 0 <= i < |cols|
    ensures var f := FirstMatch(cols, cols[i].0);
      && f <= i
      && cols[f].0 in d && d[cols[f].0] == cols[f].1
      && forall k :: k in d && EqualsIgnoreCase(k, cols[i].0) ==> k == cols[f].0
  {
    var name := cols[i].0;
    assert EqualsIgnoreCase(cols[i].0, name);
    var f := FirstMatch(cols, name);
    assert IsFirst(cols, f);
    NoCaseDuplicates(cols, d);
    forall k | k in d && EqualsIgnoreCase(k, name) ensures k == cols[f].0 {
      assert EqualsIgnoreCase(k, cols[f].0);
    }
  }

  function NameSet(cols: seq<Column>): set<string> {
    set j | 0 <= j < |cols| :: cols[j].0
  }

  lemma {:induction false} NameSetSize(cols: seq<Column>)
    ensures |NameSet(cols)| <= |cols|
    ensures (forall a, b :: 0 <= a < b < |cols| ==> cols[a].0 != cols[b].0) ==> |NameSet(cols)| == |cols|
    decreases |cols|
  {
    if cols != [] {
      var init := cols[..|cols| - 1];
      NameSetSize(init);
      assert NameSet(cols) == NameSet(init) + {cols[|cols| - 1].0} by {
        forall k | k in NameSet(cols) ensures k in NameSet(init) + {cols[|cols| - 1].0} {
          var j :| 0 <= j < |cols| && cols[j].0 == k;
          if j < |cols| - 1 {
            assert init[j] == cols[j];
          }
        }
      }
      if forall a, b :: 0 <= a < b < |cols| ==> cols[a].0 != cols[b].0 {
        assert cols[|cols| - 1].0 !in NameSet(init);
      }
    }
  }

  /** Every key is an input name, and there are no more keys than columns. */
  lemma KeysAreInputNames(cols: seq<Column>, d: map<string, Value>)
    requires IsFirstWins(cols, d)
    ensures d.Keys <= NameSet(cols)
    ensures |d| <= |cols|
  {
    NameSetSize(cols);
    assert d.Keys <= NameSet(cols);
    SubsetCardinality(d.Keys, NameSet(cols));
  }

  lemma SubsetCardinality(a: set<string>, b: set<string>)
    requires a <= b
    ensures |a| <= |b|
  {
    assert b == a + (b - a);
  }

  /** A row without case-insensitive duplicates is reproduced in full. */
  lemma NoDuplicatesReproduced(cols: seq<Column>, d: map<string, Value>)
    requires IsFirstWins(cols, d)
    requires forall a, b :: 0 <= a < b < |cols| ==> !EqualsIgnoreCase(cols[a].0, cols[b].0)
    ensures forall j :: 0 <= j < |cols| ==> cols[j].0 in d && d[cols[j].0] == cols[j].1
    ensures d.Keys == NameSet(cols) && |d| == |cols|
  {
    assert forall j :: 0 <= j < |cols| ==> IsFirst(cols, j);
    assert forall a, b :: 0 <= a < b < |cols| ==> cols[a].0 != cols[b].0;
    NameSetSize(cols);
    assert d.Keys == NameSet(cols);
  }
}
