/**
 * `build_skill_synonyms_from_db` (skill_matcher_db.py): database skill
 * records merged over the default synonym table.
 *
 * A Python dict is an insertion-ordered table: assigning an existing key
 * replaces its value in place, assigning a new key appends it. The loop over
 * the records is a run of such assignments into an empty dict, and
 * `{**SKILL_SYNONYMS, **synonyms_map}` is a run of assignments of the new
 * dict's items into a copy of the defaults.
 */
module SynonymMerge {
  import opened Chars
  import opened Outcomes
  import opened Canon
  import DbSynonyms

  /** The keys of a table, in order. */
  function Keys(d: Table): (ks: seq<string>)
    ensures |ks| == |d|
    ensures forall i :: 0 <= i < |d| ==> ks[i] == d[i].base
  {
    if d == [] then [] else [d[0].base] + Keys(d[1..])
  }

  predicate UniqueKeys(d: Table)
  {
    forall i, j :: 0 <= i < j < |d| ==> d[i].base != d[j].base
  }

  /** `d.get(k)`: the value of the first entry with key `k`. */
  function Get(d: Table, k: string): (r: Option<seq<string>>)
    ensures r.Some? <==> k in Keys(d)
    decreases |d|
  {
    assert d != [] ==> Keys(d) == [d[0].base] + Keys(d[1..]);
    if d == [] then None
    else if d[0].base == k then Some(d[0].synonyms)
    else Get(d[1..], k)
  }

  /** `d[k] = v`: replace the value of key `k` in place, or append the key. */
  function Put(d: Table, k: string, v: seq<string>): Table
    decreases |d|
  {
    if d == [] then [Entry(k, v)]
    else if d[0].base == k then [Entry(k, v)] + d[1..]
    else [d[0]] + Put(d[1..], k, v)
  }

  /** Assigning a key changes its value and nothing else; a new key goes last. */
  lemma PutLaws(d: Table, k: string, v: seq<string>)
    ensures k in Keys(d) ==> Keys(Put(d, k, v)) == Keys(d)
    ensures k !in Keys(d) ==> Put(d, k, v) == d + [Entry(k, v)]
    ensures Get(Put(d, k, v), k) == Some(v)
    ensures forall k' :: k' != k ==> Get(Put(d, k, v), k') == Get(d, k')
  {
    PutKeys(d, k, v);
    PutGet(d, k, v);
    forall k' | k' != k
      ensures Get(Put(d, k, v), k') == Get(d, k')
    {
      PutGetOther(d, k, v, k');
    }
  }

  lemma {:induction false} PutKeys(d: Table, k: string, v: seq<string>)
    ensures k in Keys(d) ==> Keys(Put(d, k, v)) == Keys(d)
    ensures k !in Keys(d) ==> Put(d, k, v) == d + [Entry(k, v)]
    decreases |d|
  {
    if d != [] {
      var r := Put(d, k, v);
      if d[0].base == k {
        assert r[1..] == d[1..];
      } else {
        PutKeys(d[1..], k, v);
        assert r[1..] == Put(d[1..], k, v);
        if k !in Keys(d) {
          assert d == [d[0]] + d[1..];
        }
      }
    }
  }

  lemma {:induction false} PutGet(d: Table, k: string, v: seq<string>)
    ensures Get(Put(d, k, v), k) == Some(v)
    decreases |d|
  {
    if d != [] && d[0].base != k {
      PutGet(d[1..], k, v);
      assert Put(d, k, v)[1..] == Put(d[1..], k, v);
    }
  }

  lemma {:induction false} PutGetOther(d: Table, k: string, v: seq<string>, k': string)
    requires k' != k
    ensures Get(Put(d, k, v), k') == Get(d, k')
    decreases |d|
  {
    if d != [] {
      var r := Put(d, k, v);
      if d[0].base == k {
        assert r[1..] == d[1..];
      } else {
        PutGetOther(d[1..], k, v, k');
        assert r[1..] == Put(d[1..], k, v);
      }
    }
  }

  /** `d[k] = v` for every item `k: v` of `m`, in order. */
  function Merge(d: Table, m: Table): Table
    decreases |m|
  {
    if m == [] then d else Merge(Put(d, m[0].base, m[0].synonyms), m[1..])
  }

  /** The keys of `ks` not in `seen`, each once, in order of first appearance. */
  function Fresh(ks: seq<string>, seen: seq<string>): (r: seq<string>)
    ensures forall k :: k in r <==> k in ks && k !in seen
    decreases |ks|
  {
    if ks == [] then []
    else if ks[0] in seen then Fresh(ks[1..], seen)
    else [ks[0]] + Fresh(ks[1..], seen + [ks[0]])
  }

  /** The value the last assignment to `k` in `m` leaves. */
  function LastValue(m: Table, k: string): (r: Option<seq<string>>)
    ensures r.Some? <==> k in Keys(m)
    decreases |m|
  {
    if m == [] then None
    else
      assert Keys(m) == [m[0].base] + Keys(m[1..]);
      var rest := LastValue(m[1..], k);
      if rest.Some? then rest
      else if m[0].base == k then Some(m[0].synonyms)
      else None
  }

  /** Merging keeps every old key in place and appends the new ones in order of first assignment. */
  lemma {:induction false} MergeKeys(d: Table, m: Table)
    ensures Keys(Merge(d, m)) == Keys(d) + Fresh(Keys(m), Keys(d))
    decreases |m|
  {
    if m != [] {
      var k := m[0].base;
      var d' := Put(d, k, m[0].synonyms);
      PutKeys(d, k, m[0].synonyms);
      MergeKeys(d', m[1..]);
      assert Merge(d, m) == Merge(d', m[1..]);
      var ks := Keys(m);
      assert ks[0] == k && ks[1..] == Keys(m[1..]);
      if k in Keys(d) {
        assert Fresh(ks, Keys(d)) == Fresh(Keys(m[1..]), Keys(d));
      } else {
        KeysSnoc(d, Entry(k, m[0].synonyms));
        assert Fresh(ks, Keys(d)) == [k] + Fresh(Keys(m[1..]), Keys(d) + [k]);
      }
    }
  }

  lemma {:induction false} KeysSnoc(d: Table, e: Entry)
    ensures Keys(d + [e]) == Keys(d) + [e.base]
    decreases |d|
  {
    if d != [] {
      KeysSnoc(d[1..], e);
      assert (d + [e])[1..] == d[1..] + [e];
    }
  }

  /** After merging, a key holds its last assigned value from `m`, or its old value if `m` never assigns it. */
  lemma {:induction false} MergeGet(d: Table, m: Table, k: string)
    ensures Get(Merge(d, m), k) == if k in Keys(m) then LastValue(m, k) else Get(d, k)
    decreases |m|
  {
    if m != [] {
      var d' := Put(d, m[0].base, m[0].synonyms);
      PutLaws(d, m[0].base, m[0].synonyms);
      MergeGet(d', m[1..], k);
      assert Keys(m) == [m[0].base] + Keys(m[1..]);
    }
  }

  /** Keys produced by `Fresh` are unique. */
  lemma {:induction false} FreshUnique(ks: seq<string>, seen: seq<string>)
    ensures forall i, j :: 0 <= i < j < |Fresh(ks, seen)| ==> Fresh(ks, seen)[i] != Fresh(ks, seen)[j]
    decreases |ks|
  {
    if ks != [] {
      if ks[0] in seen {
        FreshUnique(ks[1..], seen);
      } else {
        FreshUnique(ks[1..], seen + [ks[0]]);
        var r := Fresh(ks, seen);
        var rest := Fresh(ks[1..], seen + [ks[0]]);
        assert r == [ks[0]] + rest;
        assert ks[0] !in rest;
        forall i, j | 0 <= i < j < |r|
          ensures r[i] != r[j]
        {
          if i == 0 {
            assert r[j] == rest[j - 1];
          } else {
            assert r[i] == rest[i - 1] && r[j] == rest[j - 1];
          }
        }
      }
    }
  }

  /** On a table with unique keys, the first and the last entry for a key are the same. */
  lemma {:induction false} LastValueUnique(d: Table, k: string)
    requires UniqueKeys(d)
    ensures LastValue(d, k) == Get(d, k)
    decreases |d|
  {
    if d != [] {
      assert UniqueKeys(d[1..]) by {
        forall i, j | 0 <= i < j < |d[1..]|
          ensures d[1..][i].base != d[1..][j].base
        {
          assert d[i + 1].base != d[j + 1].base;
        }
      }
      LastValueUnique(d[1..], k);
      if d[0].base == k {
        assert Keys(d[1..]) == Keys(d)[1..];
        assert k !in Keys(d[1..]) by {
          forall i | 0 <= i < |d[1..]|
            ensures d[1..][i].base != k
          {
            assert d[0].base != d[i + 1].base;
          }
        }
      }
    }
  }

  /**
   * The `skill_name`/`synonyms` columns of a database row. A name of `None`
   * stands for one without `.lower()` (a NULL or a missing key), and so does
   * a `None` item of a synonym list: either makes the loop raise.
   */
  datatype SynonymField = Absent | List(items: seq<Option<string>>) | NotAList
  datatype SkillRecord = SkillRecord(name: Option<string>, synonyms: SynonymField)

  /** Every item of a synonym list can be lower-cased. */
  predicate ItemsReadable(f: SynonymField)
  {
    f.List? ==> forall i :: 0 <= i < |f.items| ==> f.items[i].Some?
  }

  /** The loop body runs through for this record: `skill_name` and every synonym have `.lower()`. */
  predicate Readable(r: SkillRecord)
  {
    r.name.Some? && ItemsReadable(r.synonyms)
  }

  /** The value a record is stored under: lower-cased synonyms, `[]` when absent, `[name]` when not a list. */
  function RecordValue(name: string, f: SynonymField): (v: seq<string>)
    requires ItemsReadable(f)
    ensures forall i :: 0 <= i < |v| ==> NoUpper(v[i])
    ensures f.List? ==> |v| == |f.items| && forall i :: 0 <= i < |v| ==> v[i] == Lower(f.items[i].value)
    ensures f.NotAList? ==> v == [Lower(name)]
  {
    match f
    case Absent => []
    case List(xs) => seq(|xs|, i requires 0 <= i < |xs| => Lower(xs[i].value))
    case NotAList => [Lower(name)]
  }

  /** The assignments the record loop makes, or `None` when some record makes it raise. */
  function Assignments(rs: seq<SkillRecord>): (r: Option<Table>)
    ensures r.Some? <==> forall i :: 0 <= i < |rs| ==> Readable(rs[i])
    ensures r.Some? ==> |r.value| == |rs|
    ensures r.Some? ==> forall i :: 0 <= i < |rs| ==>
      r.value[i] == Entry(Lower(rs[i].name.value), RecordValue(rs[i].name.value, rs[i].synonyms))
    decreases |rs|
  {
    if rs == [] then Some([])
    else if !Readable(rs[0]) then None
    else
      match Assignments(rs[1..])
      case None => None
      case Some(rest) => Some([Entry(Lower(rs[0].name.value), RecordValue(rs[0].name.value, rs[0].synonyms))] + rest)
  }

  /**
   * The merged table, or the defaults when the records could not be read
   * (`records == None`) or the loop raises on some record.
   */
  function BuildFrom(defaults: Table, records: Option<seq<SkillRecord>>): Table
  {
    if records.None? then defaults
    else match Assignments(records.value)
      case None => defaults
      case Some(m) => Merge(defaults, Merge([], m))
  }

  /** `build_skill_synonyms_from_db`, over the database variant's defaults. */
  function BuildSkillSynonyms(records: Option<seq<SkillRecord>>): Table
  {
    BuildFrom(DbSynonyms.Synonyms(), records)
  }

  /**
   * Every default key keeps its position; the database's keys that are not
   * defaults follow, each once, in record order. A key the database assigns
   * holds the value of its last record, any other key its default value.
   */
  lemma BuildLaws(defaults: Table, rs: seq<SkillRecord>, k: string)
    requires Assignments(rs).Some?
    ensures var r := BuildFrom(defaults, Some(rs));
      var m := Assignments(rs).value;
      && Keys(r) == Keys(defaults) + Fresh(Keys(m), Keys(defaults))
      && Get(r, k) == if k in Keys(m) then LastValue(m, k) else Get(defaults, k)
  {
    var m := Assignments(rs).value;
    var db := Merge([], m);
    MergeKeys([], m);
    MergeKeys(defaults, db);
    FreshUnique(Keys(m), []);
    assert Keys(db) == Fresh(Keys(m), []);
    assert UniqueKeys(db) by {
      forall i, j | 0 <= i < j < |db|
        ensures db[i].base != db[j].base
      {
        assert Keys(db)[i] != Keys(db)[j];
      }
    }
    FreshSame(Keys(m), Keys(defaults));
    MergeGet(defaults, db, k);
    MergeGet([], m, k);
    LastValueUnique(db, k);
  }

  /** Deduplicating first does not change which keys are fresh. */
  lemma FreshSame(ks: seq<string>, seen: seq<string>)
    ensures Fresh(Fresh(ks, []), seen) == Fresh(ks, seen)
  {
    FreshTwice(ks, [], seen);
  }

  lemma {:induction false} FreshTwice(ks: seq<string>, seen1: seq<string>, seen2: seq<string>)
    requires forall k :: k in seen1 ==> k in seen2
    ensures Fresh(Fresh(ks, seen1), seen2) == Fresh(ks, seen2)
    decreases |ks|
  {
    if ks != [] {
      var k := ks[0];
      if k in seen1 {
        FreshTwice(ks[1..], seen1, seen2);
      } else if k in seen2 {
        FreshTwice(ks[1..], seen1 + [k], seen2);
        assert Fresh(ks, seen1) == [k] + Fresh(ks[1..], seen1 + [k]);
      } else {
        FreshTwice(ks[1..], seen1 + [k], seen2 + [k]);
        assert Fresh(ks, seen1) == [k] + Fresh(ks[1..], seen1 + [k]);
      }
    }
  }

  /** Every key and every value that comes from the database is lower-case. */
  lemma DatabaseLowerCase(rs: seq<SkillRecord>)
    requires Assignments(rs).Some?
    ensures forall e :: e in Assignments(rs).value ==>
      NoUpper(e.base) && forall j :: 0 <= j < |e.synonyms| ==> NoUpper(e.synonyms[j])
  {
  }

  /**
   * When the records cannot be read, or one has no name or a synonym item
   * without `.lower()`, the defaults come back unchanged.
   */
  lemma BuildFallsBack(defaults: Table, records: Option<seq<SkillRecord>>)
    ensures records.None? ==> BuildFrom(defaults, records) == defaults
    ensures records.Some? && (exists i :: 0 <= i < |records.value| && records.value[i].name.None?) ==>
      BuildFrom(defaults, records) == defaults
    ensures records.Some? && (exists i, j :: 0 <= i < |records.value| && records.value[i].synonyms.List? &&
                                            0 <= j < |records.value[i].synonyms.items| &&
                                            records.value[i].synonyms.items[j].None?) ==>
      BuildFrom(defaults, records) == defaults
  {
  }
}
