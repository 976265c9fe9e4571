// The detailed permission list (getDetailedPermissionInfo): one row per key
// of a status object, required rows first, then by display name.

module Details {
  import opened Results
  import opened Text
  import opened OrderedMap
  import opened Permissions

  datatype Detail = Detail(key: Key, name: string, description: string, granted: bool, required: bool)

  /** The row for one entry of a status object, under a version. */
  function DetailOf(info: VersionInfo, entry: (Key, bool)): (d: Detail)
    ensures d.key == entry.0 && d.granted == entry.1
  {
    Detail(entry.0, DisplayName(entry.0), Description(entry.0), entry.1,
           IsPermissionRequired(entry.0, info))
  }

  /** The sort comparator read as "may come first": required before
      optional, then by name. Names are compared case-insensitively,
      character by character. */
  predicate Precedes(a: Detail, b: Detail) {
    (a.required && !b.required) || (a.required == b.required && NameLe(a.name, b.name))
  }

  lemma PrecedesTotal(a: Detail, b: Detail)
    ensures Precedes(a, b) || Precedes(b, a)
  {
    LexLeTotal(Lower(a.name), Lower(b.name));
  }

  lemma PrecedesTransitive(a: Detail, b: Detail, c: Detail)
    requires Precedes(a, b) && Precedes(b, c)
    ensures Precedes(a, c)
  {
    if a.required == b.required && b.required == c.required {
      LexLeTransitive(Lower(a.name), Lower(b.name), Lower(c.name));
    }
  }

  predicate SortedDetails(ds: seq<Detail>) {
    forall i, j :: 0 <= i < j < |ds| ==> Precedes(ds[i], ds[j])
  }

  /** Inserting `d` after every row that may come before it. */
  function InsertDetail(d: Detail, ds: seq<Detail>): (r: seq<Detail>)
    requires SortedDetails(ds)
    ensures SortedDetails(r)
    ensures |r| == |ds| + 1
    ensures multiset(r) == multiset(ds) + multiset{d}
    decreases |ds|
  {
    if |ds| == 0 then [d]
    else if Precedes(ds[0], d) then
      var rest := InsertDetail(d, ds[1..]);
      InsertHead(d, ds, rest);
      [ds[0]] + rest
    else
      InsertFront(d, ds);
      [d] + ds
  }

  lemma InsertHead(d: Detail, ds: seq<Detail>, rest: seq<Detail>)
    requires |ds| > 0 && SortedDetails(ds) && Precedes(ds[0], d)
    requires SortedDetails(rest) && multiset(rest) == multiset(ds[1..]) + multiset{d}
    ensures SortedDetails([ds[0]] + rest)
    ensures multiset([ds[0]] + rest) == multiset(ds) + multiset{d}
  {
    assert ds == [ds[0]] + ds[1..];
    forall x | x in rest
      ensures Precedes(ds[0], x)
    {
      assert x in multiset(rest);
      if x != d {
        var k :| 0 <= k < |ds[1..]| && ds[1..][k] == x;
        assert ds[k + 1] == x;
      }
    }
    var r := [ds[0]] + rest;
    forall i, j | 0 <= i < j < |r|
      ensures Precedes(r[i], r[j])
    {
      if i == 0 {
        assert r[j] == rest[j - 1];
        assert r[j] in rest;
      } else {
        assert r[i] == rest[i - 1] && r[j] == rest[j - 1];
      }
    }
  }

  lemma InsertFront(d: Detail, ds: seq<Detail>)
    requires |ds| > 0 && SortedDetails(ds) && !Precedes(ds[0], d)
    ensures SortedDetails([d] + ds)
  {
    PrecedesTotal(ds[0], d);
    var r := [d] + ds;
    forall i, j | 0 <= i < j < |r|
      ensures Precedes(r[i], r[j])
    {
      if i == 0 {
        if j > 1 {
          PrecedesTransitive(d, ds[0], ds[j - 1]);
        }
      } else {
        assert r[i] == ds[i - 1] && r[j] == ds[j - 1];
      }
    }
  }

  /** Stable insertion sort: each row goes after every earlier row that may
      come before it. */
  function SortDetails(ds: seq<Detail>): (r: seq<Detail>)
    ensures SortedDetails(r)
    ensures |r| == |ds|
    ensures multiset(r) == multiset(ds)
    decreases |ds|
  {
    if |ds| == 0 then []
    else
      var n := |ds| - 1;
      assert ds == ds[..n] + [ds[n]];
      InsertDetail(ds[n], SortDetails(ds[..n]))
  }

  /** The unsorted rows, in the status object's key order. */
  function Rows(info: VersionInfo, m: Status): (ds: seq<Detail>)
    ensures |ds| == |m|
    ensures forall i :: 0 <= i < |m| ==> ds[i] == DetailOf(info, m[i])
  {
    seq(|m|, i requires 0 <= i < |m| => DetailOf(info, m[i]))
  }

  /** getDetailedPermissionInfo: one row per entry of the status object
      (every value of a status object is a boolean, so none is skipped),
      required rows before optional ones, each band in name order. */
  function DetailedPermissionInfo(api: int, m: Status): (r: seq<Detail>)
    ensures |r| == |m|
    ensures multiset(r) == multiset(Rows(VersionInfoOf(api), m))
    ensures SortedDetails(r)
    ensures forall i, j :: 0 <= i < j < |r| && r[j].required ==> r[i].required
  {
    SortDetails(Rows(VersionInfoOf(api), m))
  }

  /** Each row says what the status object says about its key, and is marked
      required exactly when isPermissionRequired says so. */
  lemma DetailRowFaithful(api: int, m: Status, d: Detail)
    requires Distinct(Keys(m))
    requires d in DetailedPermissionInfo(api, m)
    ensures Lookup(m, d.key) == Some(d.granted)
    ensures d.required == IsPermissionRequired(d.key, VersionInfoOf(api))
    ensures d.name == DisplayName(d.key) && d.description == Description(d.key)
  {
    var rows := Rows(VersionInfoOf(api), m);
    assert d in multiset(DetailedPermissionInfo(api, m));
    assert d in rows;
    var i :| 0 <= i < |rows| && rows[i] == d;
    LookupDistinct(m, i);
  }

  /** Every key of the status object has its row. */
  lemma DetailRowPresent(api: int, m: Status, i: nat)
    requires i < |m|
    ensures DetailOf(VersionInfoOf(api), m[i]) in DetailedPermissionInfo(api, m)
  {
    var rows := Rows(VersionInfoOf(api), m);
    assert rows[i] in multiset(rows);
  }
}
