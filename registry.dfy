/** The name-to-source map of the manager, as values: what one registration or
    deletion does to it, and what any sequence of them preserves. */
module Registry {
  import opened Sources

  type SourceMap = map<string, InputSource>

  /** The map after addInputSource(name, src): a null source or a name on use
      leaves it as it was; otherwise exactly one entry is added. */
  function Register(m: SourceMap, name: string, src: InputSource?): (r: SourceMap)
    ensures forall k :: k in m ==> k in r && r[k] == m[k]
    ensures src == null || name in m ==> r == m
    ensures src != null && name !in m ==> name in r && r[name] == src && r.Keys == m.Keys + {name}
  {
    if src == null || name in m then m else m[name := src]
  }

  /** The map after deleteInputSource(name): a missing name or a built-in
      source leaves it as it was; otherwise exactly that entry is removed. */
  function Unregister(m: SourceMap, name: string): (r: SourceMap)
    ensures forall k :: k in r ==> k in m && r[k] == m[k]
    ensures forall k :: k in m && (k != name || m[k].isDefault) ==> k in r
    ensures name in m && !m[name].isDefault ==> name !in r
  {
    if name !in m || m[name].isDefault then m else m - {name}
  }

  datatype RegistryOp = Add(name: string, src: InputSource?) | Delete(name: string)

  function Apply(m: SourceMap, op: RegistryOp): SourceMap
  {
    match op
    case Add(name, src) => Register(m, name, src)
    case Delete(name) => Unregister(m, name)
  }

  /** The map after a sequence of registrations and deletions, in order. */
  function ApplyAll(m: SourceMap, ops: seq<RegistryOp>): SourceMap
    decreases |ops|
  {
    if ops == [] then m else ApplyAll(Apply(m, ops[0]), ops[1..])
  }

  /** One more operation at the end applies to the map the earlier ones left. */
  lemma {:induction false} ApplyAllSnoc(m: SourceMap, ops: seq<RegistryOp>, op: RegistryOp)
    ensures ApplyAll(m, ops + [op]) == Apply(ApplyAll(m, ops), op)
    decreases |ops|
  {
    if ops == [] {
      assert ops + [op] == [op];
      assert [op][1..] == [];
    } else {
      assert (ops + [op])[0] == ops[0];
      assert (ops + [op])[1..] == ops[1..] + [op];
      ApplyAllSnoc(Apply(m, ops[0]), ops[1..], op);
    }
  }

  /** The registrations of a list of named sources, in list order. */
  function Additions(entries: seq<(string, InputSource)>): (ops: seq<RegistryOp>)
    ensures |ops| == |entries|
    ensures forall i :: 0 <= i < |ops| ==> ops[i].Add? && ops[i].src != null
  {
    seq(|entries|, i requires 0 <= i < |entries| => Add(entries[i].0, entries[i].1))
  }

  /** Built-in sources survive every sequence of operations, bound to the
      same object. */
  lemma {:induction false} BuiltinsSurvive(m: SourceMap, ops: seq<RegistryOp>)
    ensures forall k :: k in m && m[k].isDefault ==>
              k in ApplyAll(m, ops) && ApplyAll(m, ops)[k] == m[k]
    decreases |ops|
  {
    if ops != [] {
      var m' := Apply(m, ops[0]);
      BuiltinsSurvive(m', ops[1..]);
      assert forall k :: k in m && m[k].isDefault ==> k in m' && m'[k] == m[k];
    }
  }

  /** Registration alone never overwrites: every existing entry keeps its
      source, and the names on use grow by exactly the names added with a
      non-null source. */
  lemma {:induction false} AddsNeverOverwrite(m: SourceMap, ops: seq<RegistryOp>)
    requires forall i :: 0 <= i < |ops| ==> ops[i].Add?
    ensures forall k :: k in m ==> k in ApplyAll(m, ops) && ApplyAll(m, ops)[k] == m[k]
    ensures ApplyAll(m, ops).Keys ==
            m.Keys + set i | 0 <= i < |ops| && ops[i].src != null :: ops[i].name
    decreases |ops|
  {
    if ops != [] {
      var m' := Apply(m, ops[0]);
      AddsNeverOverwrite(m', ops[1..]);
      var added := set i | 0 <= i < |ops| && ops[i].src != null :: ops[i].name;
      var addedLater := set i | 0 <= i < |ops[1..]| && ops[1..][i].src != null :: ops[1..][i].name;
      assert added == addedLater + (if ops[0].src != null then {ops[0].name} else {}) by {
        forall k | k in added
          ensures k in addedLater + (if ops[0].src != null then {ops[0].name} else {})
        {
          var i :| 0 <= i < |ops| && ops[i].src != null && ops[i].name == k;
          if i > 0 {
            assert ops[1..][i - 1] == ops[i];
          }
        }
        forall k | k in addedLater ensures k in added {
          var i :| 0 <= i < |ops[1..]| && ops[1..][i].src != null && ops[1..][i].name == k;
          assert ops[i + 1] == ops[1..][i];
        }
      }
    }
  }

  /** Every entry after a sequence of operations is either an original entry
      or the source some registration in the sequence added under that name. */
  lemma {:induction false} EntriesHaveOrigin(m: SourceMap, ops: seq<RegistryOp>)
    ensures forall k :: k in ApplyAll(m, ops) ==>
              (k in m && ApplyAll(m, ops)[k] == m[k]) ||
              (exists i :: 0 <= i < |ops| && ops[i] == Add(k, ApplyAll(m, ops)[k]))
    decreases |ops|
  {
    if ops != [] {
      var m' := Apply(m, ops[0]);
      var r := ApplyAll(m, ops);
      EntriesHaveOrigin(m', ops[1..]);
      forall k | k in r
        ensures (k in m && r[k] == m[k]) || (exists i :: 0 <= i < |ops| && ops[i] == Add(k, r[k]))
      {
        if k in m' && r[k] == m'[k] {
          if !(k in m && m'[k] == m[k]) {
            assert ops[0] == Add(k, r[k]);
          }
        } else {
          var i :| 0 <= i < |ops[1..]| && ops[1..][i] == Add(k, r[k]);
          assert ops[i + 1] == Add(k, r[k]);
        }
      }
    }
  }

  /** The names of a list of named sources. */
  function Names(entries: seq<(string, InputSource)>): (names: set<string>)
    ensures forall i :: 0 <= i < |entries| ==> entries[i].0 in names
    ensures forall n :: n in names ==> exists i :: 0 <= i < |entries| && entries[i].0 == n
  {
    set i | 0 <= i < |entries| :: entries[i].0
  }

  /** Registering a list of named sources in order keeps every entry,
      registers exactly the listed names, and binds each new name to a
      source listed under it. */
  lemma AdditionsRegister(m: SourceMap, entries: seq<(string, InputSource)>)
    ensures var r := ApplyAll(m, Additions(entries));
            && (forall k :: k in m ==> k in r && r[k] == m[k])
            && r.Keys == m.Keys + Names(entries)
            && (forall k :: k in r && k !in m ==>
                  exists i :: 0 <= i < |entries| && entries[i] == (k, r[k]))
  {
    var ops := Additions(entries);
    var r := ApplyAll(m, ops);
    AddsNeverOverwrite(m, ops);
    EntriesHaveOrigin(m, ops);
    var added := set i | 0 <= i < |ops| && ops[i].src != null :: ops[i].name;
    forall i | 0 <= i < |entries| ensures entries[i].0 in added {
      assert ops[i].name == entries[i].0;
    }
    assert added == Names(entries);
    forall k | k in r && k !in m
      ensures exists i :: 0 <= i < |entries| && entries[i] == (k, r[k])
    {
      var i :| 0 <= i < |ops| && ops[i] == Add(k, r[k]);
      assert entries[i] == (k, r[k]);
    }
  }

  /** Registering one more listed source extends the registrations of the
      list's prefix by one step. */
  lemma AdditionsStep(m: SourceMap, entries: seq<(string, InputSource)>, i: nat)
    requires i < |entries|
    ensures ApplyAll(m, Additions(entries[..i + 1])) ==
            Register(ApplyAll(m, Additions(entries[..i])), entries[i].0, entries[i].1)
  {
    var op := Add(entries[i].0, entries[i].1);
    assert Additions(entries[..i + 1]) == Additions(entries[..i]) + [op];
    ApplyAllSnoc(m, Additions(entries[..i]), op);
  }

  /** The listed objects are pairwise distinct and none is registered in `m`. */
  ghost predicate DistinctUnregistered(entries: seq<(string, InputSource)>, m: SourceMap)
  {
    && (forall i, j :: 0 <= i < j < |entries| ==> entries[i].1 != entries[j].1)
    && (forall i :: 0 <= i < |entries| ==> entries[i].1 !in m.Values)
  }

  /** While distinct, unregistered objects are added one by one, the next
      one to add is not yet bound to any name. */
  lemma NextNotRegistered(m: SourceMap, entries: seq<(string, InputSource)>, i: nat)
    requires DistinctUnregistered(entries, m)
    requires i < |entries|
    ensures entries[i].1 !in ApplyAll(m, Additions(entries[..i])).Values
  {
    AdditionsRegister(m, entries[..i]);
  }
}
