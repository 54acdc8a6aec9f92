/** The older YAML front end: `split_biglist` takes the three documents of a
    family file (a father mapping, a mother mapping and a spouse mapping,
    each from a name to a list of names) and reshapes them into record
    lists, the set of every name mentioned, and a table from each name to
    its uid. A uid is "personhash" followed by the hex digest of the name;
    the digest itself is a parameter. */
module BigList {
  import opened Outcomes

  /** A YAML mapping from a name to a list of names, in iteration order. */
  type Mapping = seq<(string, seq<string>)>

  /** One YAML document: a mapping from a heading ("father", ...) to a Mapping. */
  type Document = map<string, Mapping>

  /** A record `{'name': name, field: members}`. */
  datatype Record = Record(name: string, field: string, members: seq<string>)

  datatype Split = Split(
    fathers: seq<Record>,
    mothers: seq<Record>,
    spouses: seq<Record>,
    nameToUid: map<string, string>,
    personNames: set<string>)

  const UidPrefix := "personhash"

  /** `uid(name)`: the prefix, then the digest of the name. */
  function Uid(hexDigest: string -> string, name: string): (r: string)
    ensures |r| == |UidPrefix| + |hexDigest(name)|
    ensures r[..|UidPrefix|] == UidPrefix && r[|UidPrefix|..] == hexDigest(name)
  {
    UidPrefix + hexDigest(name)
  }

  /** `biglist[i][key]`: IndexError past the end, KeyError for a missing key. */
  function Section(biglist: seq<Document>, i: nat, key: string): (r: Result<Mapping>)
    ensures r.Ok? <==> i < |biglist| && key in biglist[i]
    ensures r.Err? ==> r.error == (if i < |biglist| then KeyError else IndexError)
    ensures r.Ok? ==> r.value == biglist[i][key]
  {
    if i >= |biglist| then Err(IndexError)
    else if key !in biglist[i] then Err(KeyError)
    else Ok(biglist[i][key])
  }

  /** The three lookups, in the order the source makes them. */
  function Sections(biglist: seq<Document>): (r: Result<(Mapping, Mapping, Mapping)>)
    ensures r.Ok? <==> |biglist| >= 3 && "father" in biglist[0] && "mother" in biglist[1] && "spouse" in biglist[2]
    ensures r.Ok? ==> r.value == (biglist[0]["father"], biglist[1]["mother"], biglist[2]["spouse"])
    ensures r.Err? ==> r.error == IndexError || r.error == KeyError
    ensures r.Err? && |biglist| >= 3 ==> r.error == KeyError
    ensures |biglist| == 0 ==> r == Err(IndexError)
  {
    match Section(biglist, 0, "father")
    case Err(e) => Err(e)
    case Ok(f) =>
      match Section(biglist, 1, "mother")
      case Err(e) => Err(e)
      case Ok(m) =>
        match Section(biglist, 2, "spouse")
        case Err(e) => Err(e)
        case Ok(s) => Ok((f, m, s))
  }

  /** One record per key of the mapping, in key order. */
  function RecordsOf(d: Mapping, field: string): (r: seq<Record>)
    ensures |r| == |d|
    ensures forall i :: 0 <= i < |d| ==> r[i].name == d[i].0 && r[i].field == field && r[i].members == d[i].1
  {
    seq(|d|, i requires 0 <= i < |d| => Record(d[i].0, field, d[i].1))
  }

  /** Every name a record list mentions: the record names and their members. */
  function NamesIn(records: seq<Record>): (r: set<string>)
    ensures forall i :: 0 <= i < |records| ==> records[i].name in r && Elements(records[i].members) <= r
    ensures forall n :: n in r ==> exists i :: 0 <= i < |records| && (records[i].name == n || n in records[i].members)
  {
    (set i | 0 <= i < |records| :: records[i].name)
    + (set i, n | 0 <= i < |records| && n in records[i].members :: n)
  }

  /** The names of a list, as a set. */
  function Elements(s: seq<string>): set<string>
  {
    set n | n in s
  }

  /** The table maps exactly the given names, each to its uid. */
  ghost predicate UidTable(table: map<string, string>, names: set<string>, hexDigest: string -> string)
  {
    table.Keys == names && forall n :: n in table ==> table[n] == Uid(hexDigest, n)
  }

  /** `split_biglist`. */
  method SplitBiglist(biglist: seq<Document>, hexDigest: string -> string) returns (r: Result<Split>)
    ensures r.Ok? <==> Sections(biglist).Ok?
    ensures r.Err? ==> r.error == Sections(biglist).error
    ensures r.Ok? ==>
      var (f, m, s) := Sections(biglist).value;
      && r.value.fathers == RecordsOf(f, "children")
      && r.value.mothers == RecordsOf(m, "children")
      && r.value.spouses == RecordsOf(s, "spouses")
      && r.value.personNames == NamesIn(r.value.fathers) + NamesIn(r.value.mothers) + NamesIn(r.value.spouses)
      && UidTable(r.value.nameToUid, r.value.personNames, hexDigest)
  {
    var f := Section(biglist, 0, "father");
    if f.Err? {
      return Err(f.error);
    }
    var m := Section(biglist, 1, "mother");
    if m.Err? {
      return Err(m.error);
    }
    var s := Section(biglist, 2, "spouse");
    if s.Err? {
      return Err(s.error);
    }
    var fathers := BuildRecords(f.value, "children");
    var mothers := BuildRecords(m.value, "children");
    var spouses := BuildRecords(s.value, "spouses");
    var names: set<string> := {};
    var table: map<string, string> := map[];
    names, table := CollectNames(fathers, names, table, hexDigest);
    names, table := CollectNames(mothers, names, table, hexDigest);
    names, table := CollectNames(spouses, names, table, hexDigest);
    return Ok(Split(fathers, mothers, spouses, table, names));
  }

  /** The loop that appends one record per key. */
  method BuildRecords(d: Mapping, field: string) returns (records: seq<Record>)
    ensures records == RecordsOf(d, field)
  {
    records := [];
    for i := 0 to |d|
      invariant records == RecordsOf(d[..i], field)
    {
      assert d[..i + 1][..i] == d[..i];
      records := records + [Record(d[i].0, field, d[i].1)];
    }
    assert d[..|d|] == d;
  }

  /** The loop that records each name and member of the records, with its uid. */
  method CollectNames(records: seq<Record>, names: set<string>, table: map<string, string>,
                      hexDigest: string -> string)
    returns (names': set<string>, table': map<string, string>)
    requires UidTable(table, names, hexDigest)
    ensures names' == names + NamesIn(records)
    ensures UidTable(table', names', hexDigest)
  {
    names', table' := names, table;
    for i := 0 to |records|
      invariant names' == names + NamesIn(records[..i])
      invariant UidTable(table', names', hexDigest)
    {
      var record := records[i];
      NamesInAppend(records, i);
      TableInsert(table', names', hexDigest, record.name);
      table' := table'[record.name := Uid(hexDigest, record.name)];
      names' := names' + {record.name};
      names', table' := CollectMembers(record.members, names', table', hexDigest);
    }
    assert records[..|records|] == records;
  }

  /** The inner loop over one record's children or spouses. */
  method CollectMembers(members: seq<string>, names: set<string>, table: map<string, string>,
                        hexDigest: string -> string)
    returns (names': set<string>, table': map<string, string>)
    requires UidTable(table, names, hexDigest)
    ensures names' == names + Elements(members)
    ensures UidTable(table', names', hexDigest)
  {
    names', table' := names, table;
    for j := 0 to |members|
      invariant names' == names + Elements(members[..j])
      invariant UidTable(table', names', hexDigest)
    {
      var member := members[j];
      assert Elements(members[..j + 1]) == Elements(members[..j]) + {member} by {
        assert members[..j + 1] == members[..j] + [member];
      }
      TableInsert(table', names', hexDigest, member);
      table' := table'[member := Uid(hexDigest, member)];
      names' := names' + {member};
    }
    assert members[..|members|] == members;
  }

  /** Recording one more name keeps the table exact. */
  lemma TableInsert(table: map<string, string>, names: set<string>, hexDigest: string -> string, n: string)
    requires UidTable(table, names, hexDigest)
    ensures UidTable(table[n := Uid(hexDigest, n)], names + {n}, hexDigest)
  {
  }

  /** One more record adds its name and its members. */
  lemma NamesInAppend(records: seq<Record>, i: int)
    requires 0 <= i < |records|
    ensures NamesIn(records[..i + 1])
      == NamesIn(records[..i]) + {records[i].name} + Elements(records[i].members)
  {
    var a, b := records[..i], records[..i + 1];
    var lhs, rhs := NamesIn(b), NamesIn(a) + {records[i].name} + Elements(records[i].members);
    forall n | n in lhs
      ensures n in rhs
    {
      var k :| 0 <= k < |b| && (b[k].name == n || n in b[k].members);
      if k < i {
        assert b[k] == a[k];
        assert a[k].name in NamesIn(a) && Elements(a[k].members) <= NamesIn(a);
      } else {
        assert b[k] == records[i];
      }
    }
    forall n | n in rhs
      ensures n in lhs
    {
      if n in NamesIn(a) {
        var k :| 0 <= k < |a| && (a[k].name == n || n in a[k].members);
        assert b[k] == a[k];
        assert b[k].name in lhs && Elements(b[k].members) <= lhs;
      } else {
        assert b[i] == records[i];
        assert b[i].name in lhs && Elements(b[i].members) <= lhs;
      }
    }
  }


  /** A name is mentioned by the records of a mapping exactly when it is one
      of the mapping's keys or appears in one of its lists. */
  lemma MentionedNames(d: Mapping, field: string, n: string)
    ensures n in NamesIn(RecordsOf(d, field))
      <==> exists i :: 0 <= i < |d| && (d[i].0 == n || n in d[i].1)
  {
    var r := RecordsOf(d, field);
    if n in NamesIn(r) {
      if n in (set i | 0 <= i < |r| :: r[i].name) {
        var i :| 0 <= i < |r| && r[i].name == n;
        assert d[i].0 == n;
      } else {
        var i, m :| 0 <= i < |r| && m in r[i].members && m == n;
        assert n in d[i].1;
      }
    }
    if exists i :: 0 <= i < |d| && (d[i].0 == n || n in d[i].1) {
      var i :| 0 <= i < |d| && (d[i].0 == n || n in d[i].1);
      assert r[i] == Record(d[i].0, field, d[i].1);
      if d[i].0 == n {
        assert n in (set i | 0 <= i < |r| :: r[i].name);
      } else {
        assert n in (set i, m | 0 <= i < |r| && m in r[i].members :: m);
      }
    }
  }


  /** Two documents read alike at one position and heading. */
  ghost predicate SameSection(b: seq<Document>, c: seq<Document>, i: nat, key: string)
  {
    (i < |b| <==> i < |c|)
    && (i < |b| ==> (key in b[i] <==> key in c[i]) && (key in b[i] ==> b[i][key] == c[i][key]))
  }

  /** Only `biglist[0]['father']`, `biglist[1]['mother']` and
      `biglist[2]['spouse']` are read: documents past the third, and any
      other heading, make no difference. */
  lemma SectionsReadOnlyTheirHeadings(b: seq<Document>, c: seq<Document>)
    requires SameSection(b, c, 0, "father")
    requires SameSection(b, c, 1, "mother")
    requires SameSection(b, c, 2, "spouse")
    ensures Sections(b) == Sections(c)
  {
  }

  /** Extra documents after the third are ignored. */
  lemma SectionsIgnoreExtraDocuments(b: seq<Document>, extra: seq<Document>)
    requires |b| >= 3
    ensures Sections(b + extra) == Sections(b)
  {
    assert (b + extra)[0] == b[0] && (b + extra)[1] == b[1] && (b + extra)[2] == b[2];
  }
}
