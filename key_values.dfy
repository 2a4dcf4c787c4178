/** Operations on lists of key/value rows: the add, update-by-id and
    remove-by-id edits of the editors, the "active row" filter, and the
    reduction of a row list to a last-write-wins map. */
module KeyValues {
  import opened Types
  import opened Seqs

  /** The row `add` appends: empty key and value, enabled. */
  function NewEntry(id: string): KeyValuePair {
    KeyValuePair(id, "", "", true)
  }

  /** `[...s, newEntry]`. */
  function Add(s: seq<KeyValuePair>, id: string): (r: seq<KeyValuePair>)
    ensures |r| == |s| + 1 && r[..|s|] == s
    ensures r[|s|].key == "" && r[|s|].value == "" && r[|s|].enabled && r[|s|].id == id
  {
    s + [NewEntry(id)]
  }

  /** `{ ...e, [field]: newValue }`. */
  function Apply(e: KeyValuePair, u: FieldUpdate): KeyValuePair {
    match u
    case SetKey(k) => e.(key := k)
    case SetValue(v) => e.(value := v)
    case SetEnabled(b) => e.(enabled := b)
  }

  /** `after` is `before` with exactly the field `u` names set to `u`'s value. */
  predicate UpdatedBy(before: KeyValuePair, after: KeyValuePair, u: FieldUpdate) {
    after.id == before.id
    && (if u.SetKey? then after.key == u.newKey else after.key == before.key)
    && (if u.SetValue? then after.value == u.newValue else after.value == before.value)
    && (if u.SetEnabled? then after.enabled == u.newEnabled else after.enabled == before.enabled)
  }

  /** `s.map(e => e.id === id ? { ...e, [field]: newValue } : e)`: the
      length, the order and the ids are kept; only the named field of the
      matching rows changes, and every other row is left alone. */
  function Update(s: seq<KeyValuePair>, id: string, u: FieldUpdate): (r: seq<KeyValuePair>)
    ensures |r| == |s|
    ensures forall i :: 0 <= i < |s| && s[i].id == id ==> UpdatedBy(s[i], r[i], u)
    ensures forall i :: 0 <= i < |s| && s[i].id != id ==> r[i] == s[i]
  {
    seq(|s|, i requires 0 <= i < |s| => if s[i].id == id then Apply(s[i], u) else s[i])
  }

  function OtherId(id: string): KeyValuePair -> bool {
    (e: KeyValuePair) => e.id != id
  }

  /** `s.filter(e => e.id !== id)`: exactly the rows with another id. */
  function Remove(s: seq<KeyValuePair>, id: string): (r: seq<KeyValuePair>)
    ensures |r| <= |s|
    ensures forall i :: 0 <= i < |r| ==> r[i].id != id && r[i] in s
    ensures forall i :: 0 <= i < |s| && s[i].id != id ==> s[i] in r
  {
    Filter(s, OtherId(id))
  }

  /** `e.enabled && e.key`: the rows that go out with a request. */
  predicate IsActive(e: KeyValuePair) {
    e.enabled && e.key != ""
  }

  /** `e.key && e.value`: the rows the store serialises. */
  predicate HasKeyAndValue(e: KeyValuePair) {
    e.key != "" && e.value != ""
  }

  /** `s.reduce((acc, e) => { if (keep(e)) acc[e.key] = e.value; return acc }, {})`:
      a left fold, so a later row overwrites an earlier one with the same key. */
  function Collect(s: seq<KeyValuePair>, keep: KeyValuePair -> bool): map<string, string>
    decreases |s|
  {
    if s == [] then map[]
    else
      var acc := Collect(s[..|s| - 1], keep);
      var e := s[|s| - 1];
      if keep(e) then acc[e.key := e.value] else acc
  }

  /** `getActiveHeaders`: the enabled, keyed rows collapsed to a map, so
      no header name is empty and every value is that of an enabled row
      with that name. */
  function ActiveHeaders(s: seq<KeyValuePair>): (r: map<string, string>)
    ensures forall k :: k in r ==> k != ""
    ensures forall k :: k in r ==> exists i :: 0 <= i < |s| && s[i].enabled && s[i].key == k && s[i].value == r[k]
  {
    var r := Collect(s, IsActive);
    assert forall k :: k in r ==> exists i :: 0 <= i < |s| && IsActive(s[i]) && s[i].key == k && s[i].value == r[k] by {
      forall k | k in r
        ensures exists i :: 0 <= i < |s| && IsActive(s[i]) && s[i].key == k && s[i].value == r[k]
      {
        CollectValueFrom(s, IsActive, k);
      }
    }
    r
  }

  function Pairs(s: seq<KeyValuePair>): (r: seq<(string, string)>)
    ensures |r| == |s|
    ensures forall i :: 0 <= i < |s| ==> r[i] == (s[i].key, s[i].value)
  {
    seq(|s|, i requires 0 <= i < |s| => (s[i].key, s[i].value))
  }

  /** The (key, value) pairs of the active rows, in order: what is appended
      to a URL's query or to a form payload. At most one pair per row, and
      never one with an empty key. */
  function ActivePairs(s: seq<KeyValuePair>): (r: seq<(string, string)>)
    ensures |r| <= |s|
    ensures forall i :: 0 <= i < |r| ==> r[i].0 != ""
  {
    Pairs(Filter(s, IsActive))
  }

  // ---------------------------------------------------------------------
  // Add, update and remove

  /** Removing the id of a freshly added row undoes the add. */
  lemma AddThenRemove(s: seq<KeyValuePair>, id: string)
    requires forall i :: 0 <= i < |s| ==> s[i].id != id
    ensures Remove(Add(s, id), id) == s
  {
    FilterSnoc(s, NewEntry(id), OtherId(id));
    FilterKeepsAll(s, OtherId(id));
  }

  /** Removing an id no row has changes nothing. */
  lemma RemoveAbsentId(s: seq<KeyValuePair>, id: string)
    requires forall i :: 0 <= i < |s| ==> s[i].id != id
    ensures Remove(s, id) == s
  {
    FilterKeepsAll(s, OtherId(id));
  }

  /** Remove keeps the surviving rows in their order: it works on each
      part of a list independently. */
  lemma RemoveDistributes(a: seq<KeyValuePair>, b: seq<KeyValuePair>, id: string)
    ensures Remove(a + b, id) == Remove(a, id) + Remove(b, id)
  {
    FilterAppend(a, b, OtherId(id));
  }

  /** Updating a row and then removing it is the same as removing it. */
  lemma {:induction false} UpdateThenRemove(s: seq<KeyValuePair>, id: string, u: FieldUpdate)
    ensures Remove(Update(s, id, u), id) == Remove(s, id)
    decreases |s|
  {
    if s != [] {
      var t := Update(s, id, u);
      assert t[1..] == Update(s[1..], id, u);
      assert t[0].id == s[0].id;
      UpdateThenRemove(s[1..], id, u);
    }
  }

  // ---------------------------------------------------------------------
  // Reduction to a map

  /** The keys of the collected map are exactly the keys of the kept rows. */
  lemma {:induction false} CollectKeys(s: seq<KeyValuePair>, keep: KeyValuePair -> bool, k: string)
    ensures k in Collect(s, keep) <==> exists i :: 0 <= i < |s| && keep(s[i]) && s[i].key == k
    decreases |s|
  {
    if s != [] {
      var init := s[..|s| - 1];
      CollectKeys(init, keep, k);
      assert forall i :: 0 <= i < |init| ==> init[i] == s[i];
      if k in Collect(init, keep) {
        var i :| 0 <= i < |init| && keep(init[i]) && init[i].key == k;
        assert s[i] == init[i];
      }
    }
  }

  /** Each key maps to the value of the LAST kept row with that key. */
  lemma {:induction false} CollectLastWins(s: seq<KeyValuePair>, keep: KeyValuePair -> bool, i: int)
    requires 0 <= i < |s| && keep(s[i])
    requires forall j :: i < j < |s| && keep(s[j]) ==> s[j].key != s[i].key
    ensures s[i].key in Collect(s, keep) && Collect(s, keep)[s[i].key] == s[i].value
    decreases |s|
  {
    if i < |s| - 1 {
      var init := s[..|s| - 1];
      assert forall j :: 0 <= j < |init| ==> init[j] == s[j];
      CollectLastWins(init, keep, i);
    }
  }

  /** Every collected value is the value of a kept row with that key. */
  lemma {:induction false} CollectValueFrom(s: seq<KeyValuePair>, keep: KeyValuePair -> bool, k: string)
    requires k in Collect(s, keep)
    ensures exists i :: 0 <= i < |s| && keep(s[i]) && s[i].key == k && s[i].value == Collect(s, keep)[k]
    decreases |s|
  {
    var init := s[..|s| - 1];
    var e := s[|s| - 1];
    if keep(e) && e.key == k {
      assert keep(s[|s| - 1]);
    } else {
      CollectValueFrom(init, keep, k);
      var i :| 0 <= i < |init| && keep(init[i]) && init[i].key == k && init[i].value == Collect(init, keep)[k];
      assert s[i] == init[i];
    }
  }

  /** The active-header map: its keys are the keys of enabled rows with a
      non-empty key, and each maps to the last such row's value. */
  lemma ActiveHeadersSpec(s: seq<KeyValuePair>)
    ensures forall k :: k in ActiveHeaders(s) <==> exists i :: 0 <= i < |s| && IsActive(s[i]) && s[i].key == k
    ensures forall i :: 0 <= i < |s| && IsActive(s[i])
              && (forall j :: i < j < |s| && IsActive(s[j]) ==> s[j].key != s[i].key)
              ==> s[i].key in ActiveHeaders(s) && ActiveHeaders(s)[s[i].key] == s[i].value
  {
    forall k ensures k in ActiveHeaders(s) <==> exists i :: 0 <= i < |s| && IsActive(s[i]) && s[i].key == k {
      CollectKeys(s, IsActive, k);
    }
    forall i | 0 <= i < |s| && IsActive(s[i]) && (forall j :: i < j < |s| && IsActive(s[j]) ==> s[j].key != s[i].key)
      ensures s[i].key in ActiveHeaders(s) && ActiveHeaders(s)[s[i].key] == s[i].value
    {
      CollectLastWins(s, IsActive, i);
    }
  }

  // ---------------------------------------------------------------------
  // Active pairs

  /** The active pairs of a list are those of its parts, in order, and a
      single row contributes its pair exactly when it is active. Together
      these determine `ActivePairs` on every list. */
  lemma ActivePairsDistributes(a: seq<KeyValuePair>, b: seq<KeyValuePair>)
    ensures ActivePairs(a + b) == ActivePairs(a) + ActivePairs(b)
    ensures forall e :: ActivePairs([e]) == if IsActive(e) then [(e.key, e.value)] else []
  {
    FilterAppend(a, b, IsActive);
    forall e ensures ActivePairs([e]) == if IsActive(e) then [(e.key, e.value)] else [] {
      assert Filter([e], IsActive) == (if IsActive(e) then [e] else []) + Filter([e][1..], IsActive);
    }
  }

  /** One more row at the end adds its pair exactly when it is active. */
  lemma ActivePairsSnoc(s: seq<KeyValuePair>, e: KeyValuePair)
    ensures ActivePairs(s + [e]) == ActivePairs(s) + (if IsActive(e) then [(e.key, e.value)] else [])
  {
    ActivePairsDistributes(s, [e]);
  }

  /** `p` is the key and value of an active row of `s`. */
  predicate PairOfActiveRow(s: seq<KeyValuePair>, p: (string, string)) {
    exists j :: 0 <= j < |s| && IsActive(s[j]) && p == (s[j].key, s[j].value)
  }

  /** The pair at position `k` comes from an active row. */
  lemma ActivePairFrom(s: seq<KeyValuePair>, k: int)
    requires 0 <= k < |ActivePairs(s)|
    ensures PairOfActiveRow(s, ActivePairs(s)[k])
  {
    var f := Filter(s, IsActive);
    assert f[k] in s;
    var j :| 0 <= j < |s| && s[j] == f[k];
  }

  /** Every active pair comes from an active row, and every active row
      contributes its pair. */
  lemma ActivePairsMembers(s: seq<KeyValuePair>)
    ensures forall p :: p in ActivePairs(s) ==> exists i :: 0 <= i < |s| && IsActive(s[i]) && p == (s[i].key, s[i].value)
    ensures forall i :: 0 <= i < |s| && IsActive(s[i]) ==> (s[i].key, s[i].value) in ActivePairs(s)
  {
    var f := Filter(s, IsActive);
    forall p | p in ActivePairs(s)
      ensures exists i :: 0 <= i < |s| && IsActive(s[i]) && p == (s[i].key, s[i].value)
    {
      var j :| 0 <= j < |f| && Pairs(f)[j] == p;
      assert f[j] in s;
      var i :| 0 <= i < |s| && s[i] == f[j];
    }
    forall i | 0 <= i < |s| && IsActive(s[i])
      ensures (s[i].key, s[i].value) in ActivePairs(s)
    {
      var j :| 0 <= j < |f| && f[j] == s[i];
      assert Pairs(f)[j] == (s[i].key, s[i].value);
    }
  }
}
