/** The dashboard hook: one read of the booking list, the number of bookings,
    a histogram of booking types, and the ten most visited attractions by a
    histogram of attraction names. */
module DashboardHook {
  import opened Js
  import Api
  import opened ResourceStore
  import opened Sorting

  /** The property keys `acc[booking[field]]` uses: the field's value as a string. */
  function Column(data: seq<Row>, field: string): (c: seq<string>)
    ensures |c| == |data|
  {
    seq(|data|, i requires 0 <= i < |data| => ToStr(Get(data[i], field)))
  }

  lemma ColumnPrefix(data: seq<Row>, field: string, i: int)
    requires 0 <= i < |data|
    ensures Column(data, field)[..i + 1] == Column(data, field)[..i] + [ToStr(Get(data[i], field))]
  {
  }

  /** How many times `k` occurs in `s`. */
  function Occurrences(s: seq<string>, k: string): nat {
    if s == [] then 0
    else Occurrences(s[..|s| - 1], k) + (if s[|s| - 1] == k then 1 else 0)
  }

  /** The distinct elements of `s` in order of first occurrence: the order in
      which the accumulator object gains its properties. */
  function Distinct(s: seq<string>): seq<string> {
    if s == [] then []
    else
      var d := Distinct(s[..|s| - 1]);
      if s[|s| - 1] in s[..|s| - 1] then d else d + [s[|s| - 1]]
  }

  /** Appending one key raises its count by one and leaves the others. */
  lemma OccurrencesSnoc(p: seq<string>, x: string, k: string)
    ensures Occurrences(p + [x], k) == Occurrences(p, k) + (if x == k then 1 else 0)
  {
    assert (p + [x])[..|p|] == p;
  }

  /** Appending one key lists it at the end if it is new. */
  lemma DistinctSnoc(p: seq<string>, x: string)
    ensures Distinct(p + [x]) == if x in p then Distinct(p) else Distinct(p) + [x]
  {
    assert (p + [x])[..|p|] == p;
  }

  /** A key is absent exactly when it occurs zero times. */
  lemma {:induction false} OccurrencesZero(s: seq<string>, k: string)
    ensures Occurrences(s, k) == 0 <==> k !in s
  {
    if s != [] {
      var p := s[..|s| - 1];
      OccurrencesZero(p, k);
      assert s == p + [s[|s| - 1]];
    }
  }

  /** The distinct elements are the elements, each listed once. */
  lemma {:induction false} DistinctOnce(s: seq<string>, k: string)
    ensures k in Distinct(s) <==> k in s
    ensures Occurrences(Distinct(s), k) == if k in s then 1 else 0
  {
    if s != [] {
      var p := s[..|s| - 1];
      var x := s[|s| - 1];
      DistinctOnce(p, k);
      assert s == p + [x];
      var d := Distinct(p);
      if x !in p {
        assert (d + [x])[..|d|] == d;
        if k == x {
          OccurrencesZero(d, k);
        }
      }
    }
  }

  /** The sum of the counts of `keys` in `col`. */
  function SumCounts(keys: seq<string>, col: seq<string>): nat {
    if keys == [] then 0
    else SumCounts(keys[..|keys| - 1], col) + Occurrences(col, keys[|keys| - 1])
  }

  /** One more record raises the sum by the number of times its key is listed. */
  lemma {:induction false} SumCountsSnoc(keys: seq<string>, p: seq<string>, x: string)
    ensures SumCounts(keys, p + [x]) == SumCounts(keys, p) + Occurrences(keys, x)
  {
    if keys != [] {
      SumCountsSnoc(keys[..|keys| - 1], p, x);
      assert (p + [x])[..|p|] == p;
    }
  }

  /** The histogram's counts add up to the number of records. */
  lemma {:induction false} CountsSum(s: seq<string>)
    ensures SumCounts(Distinct(s), s) == |s|
  {
    if s != [] {
      var p := s[..|s| - 1];
      var x := s[|s| - 1];
      var d := Distinct(p);
      assert s == p + [x];
      CountsSum(p);
      SumCountsSnoc(d, p, x);
      DistinctOnce(p, x);
      if x !in p {
        assert (d + [x])[..|d|] == d;
        OccurrencesZero(p, x);
        assert Distinct(s) == d + [x];
        assert SumCounts(Distinct(s), s) == SumCounts(d, s) + Occurrences(s, x);
      }
    }
  }

  /** `keys` and `counts` are the histogram of `col`: its distinct keys in
      order of first occurrence, and the number of times each occurs. */
  ghost predicate Tallied(col: seq<string>, keys: seq<string>, counts: map<string, int>) {
    keys == Distinct(col) && Counted(col, counts)
  }

  /** `counts` has a property for exactly the keys of `col`, each holding the
      number of times it occurs. */
  ghost predicate Counted(col: seq<string>, counts: map<string, int>) {
    && (forall k :: k in counts <==> k in col)
    && (forall k :: k in counts ==> counts[k] == Occurrences(col, k))
  }

  /** One step of the `reduce`: counting one more key keeps the histogram. */
  lemma TallyStep(p: seq<string>, k: string, keys: seq<string>, counts: map<string, int>)
    requires Tallied(p, keys, counts)
    ensures Tallied(p + [k], if k in counts then keys else keys + [k],
                    counts[k := (if k in counts then counts[k] else 0) + 1])
  {
    DistinctSnoc(p, k);
    var c := counts[k := (if k in counts then counts[k] else 0) + 1];
    forall j | j in c
      ensures c[j] == Occurrences(p + [k], j)
    {
      OccurrencesSnoc(p, k, j);
      if j == k && k !in p {
        OccurrencesZero(p, k);
      }
    }
  }

  /** The two `reduce` calls: the accumulator object's properties, in creation
      order, and their values. `acc[k] || 0` reads 0 for a new key, and a
      present key always holds a positive count. */
  method Tally(data: seq<Row>, field: string) returns (keys: seq<string>, counts: map<string, int>)
    ensures Tallied(Column(data, field), keys, counts)
  {
    var col := Column(data, field);
    keys, counts := [], map[];
    for i := 0 to |data|
      invariant Tallied(col[..i], keys, counts)
    {
      var k := ToStr(Get(data[i], field));
      ghost var p := col[..i];
      var previous := if k in counts then counts[k] else 0;
      TallyStep(p, k, keys, counts);
      if k !in counts {
        keys := keys + [k];
      }
      counts := counts[k := previous + 1];
      assert Tallied(p + [k], keys, counts);
      ColumnPrefix(data, field, i);
    }
    assert col[..|data|] == col;
  }

  /** One entry of the attraction ranking: `[name, count]`, then `{ name, visits }`. */
  datatype Visit = Visit(name: string, visits: int)

  function VisitsOf(v: Visit): int { v.visits }

  /** `Object.entries` of the attraction histogram. */
  function Entries(keys: seq<string>, col: seq<string>): (r: seq<Visit>)
    ensures |r| == |keys|
  {
    seq(|keys|, i requires 0 <= i < |keys| => Visit(keys[i], Occurrences(col, keys[i])))
  }

  /** `Object.entries(attractionCounts)`. */
  function ObjectEntries(keys: seq<string>, counts: map<string, int>): (r: seq<Visit>)
    requires forall i :: 0 <= i < |keys| ==> keys[i] in counts
    ensures |r| == |keys|
  {
    seq(|keys|, i requires 0 <= i < |keys| => Visit(keys[i], counts[keys[i]]))
  }

  /** The entries of a histogram object are its keys with their counts. */
  lemma TalliedEntries(col: seq<string>, keys: seq<string>, counts: map<string, int>)
    requires Tallied(col, keys, counts)
    ensures forall i :: 0 <= i < |keys| ==> keys[i] in counts
    ensures ObjectEntries(keys, counts) == Entries(keys, col)
  {
    forall i | 0 <= i < |keys|
      ensures keys[i] in counts
    {
      DistinctOnce(col, keys[i]);
    }
  }

  /** `sortedAttractions`: the entries sorted by count, most visited first, and cut at ten. */
  function MostVisited(data: seq<Row>): seq<Visit> {
    var col := Column(data, "attractionName");
    Take(SortDesc(Entries(Distinct(col), col), VisitsOf), 10)
  }

  /** Every entry is an attraction of the column with its count, and every
      attraction of the column has its entry. */
  lemma EntriesOfColumn(col: seq<string>)
    ensures forall v :: v in Entries(Distinct(col), col) ==> v.name in col && v.visits == Occurrences(col, v.name)
    ensures forall n :: n in col ==> Visit(n, Occurrences(col, n)) in Entries(Distinct(col), col)
  {
    var keys := Distinct(col);
    var entries := Entries(keys, col);
    forall v | v in entries
      ensures v.name in col && v.visits == Occurrences(col, v.name)
    {
      var i :| 0 <= i < |entries| && entries[i] == v;
      DistinctOnce(col, keys[i]);
    }
    forall n | n in col
      ensures Visit(n, Occurrences(col, n)) in entries
    {
      DistinctOnce(col, n);
      var i :| 0 <= i < |keys| && keys[i] == n;
      assert entries[i] == Visit(n, Occurrences(col, n));
    }
  }

  /** No histogram key is listed twice. */
  lemma {:induction false} DistinctNoDuplicates(s: seq<string>)
    ensures NoDuplicates(Distinct(s))
  {
    if s != [] {
      var p := s[..|s| - 1];
      var x := s[|s| - 1];
      DistinctNoDuplicates(p);
      DistinctOnce(p, x);
    }
  }

  /** No entry of the histogram is listed twice: their names differ. */
  lemma EntriesNoDuplicates(col: seq<string>)
    ensures NoDuplicates(Entries(Distinct(col), col))
  {
    var keys := Distinct(col);
    var e := Entries(keys, col);
    DistinctNoDuplicates(col);
    forall i, j | 0 <= i < j < |e|
      ensures e[i] != e[j]
    {
      assert e[i].name == keys[i] && e[j].name == keys[j];
    }
  }

  /** The ranking holds at most ten attractions, most visited first, each with
      its histogram count and each named once; an attraction missing from it
      has no more visits than any listed one, and then the list is full. */
  lemma MostVisitedSpec(data: seq<Row>)
    ensures var col := Column(data, "attractionName"); var r := MostVisited(data);
      && |r| <= 10 && Descending(r, VisitsOf)
      && (forall v :: v in r ==> v.name in col && v.visits == Occurrences(col, v.name))
      && (forall i, j :: 0 <= i < j < |r| ==> r[i].name != r[j].name)
      && forall n :: n in col && (forall v :: v in r ==> v.name != n) ==>
           |r| == 10 && forall v :: v in r ==> v.visits >= Occurrences(col, n)
  {
    var col := Column(data, "attractionName");
    var entries := Entries(Distinct(col), col);
    TopSpec(entries, VisitsOf, 10);
    EntriesOfColumn(col);
    EntriesNoDuplicates(col);
    var r := MostVisited(data);
    SubMultisetNoDuplicates(r, entries);
    forall i, j | 0 <= i < j < |r|
      ensures r[i].name != r[j].name
    {
      assert r[i] in r && r[j] in r;
    }
  }

  /** Records without an attraction name are counted under the key
      `"undefined"`: the histogram is taken over every booking, not only the
      attraction bookings. */
  lemma NamelessCounted(data: seq<Row>, i: int)
    requires 0 <= i < |data| && "attractionName" !in data[i]
    ensures "undefined" in Distinct(Column(data, "attractionName"))
  {
    var col := Column(data, "attractionName");
    assert col[i] == "undefined";
    DistinctOnce(col, "undefined");
  }

  /** The hook's state. `error` holds the caught failure (None for `null`),
      represented by its response message. */
  class Dashboard {
    const apiUrl: string
    var totalBookings: int
    var bookingTypeCounts: map<string, int>
    var mostVisitedAttractions: seq<Visit>
    var loading: bool
    var error: Option<JsValue>

    /** The `useState` initial values. */
    constructor(apiUrl: string)
      ensures this.apiUrl == apiUrl && totalBookings == 0 && bookingTypeCounts == map[]
      ensures mostVisitedAttractions == [] && loading && error == None
    {
      this.apiUrl := apiUrl;
      totalBookings := 0;
      bookingTypeCounts := map[];
      mostVisitedAttractions := [];
      loading := true;
      error := None;
    }

    /** `fetchBookingData`: read the booking list; on success set the count,
        the type histogram and the ranking, on failure record the error and
        keep the rest; `loading` ends false either way. */
    method FetchBookingData(outcome: Outcome<seq<Row>>) returns (request: Request)
      modifies this
      ensures request == Request(HttpGet, Api.Url(apiUrl, Api.List(Api.Booking)), None)
      ensures !loading
      ensures outcome.Success? ==>
        && totalBookings == |outcome.data|
        && Counted(Column(outcome.data, "bookingType"), bookingTypeCounts)
        && mostVisitedAttractions == MostVisited(outcome.data)
        && error == old(error)
      ensures outcome.Failure? ==>
        && error == Some(outcome.message)
        && totalBookings == old(totalBookings) && bookingTypeCounts == old(bookingTypeCounts)
        && mostVisitedAttractions == old(mostVisitedAttractions)
    {
      request := Request(HttpGet, Api.Url(apiUrl, Api.List(Api.Booking)), None);
      match outcome {
        case Success(data) =>
          totalBookings := |data|;
          var typeKeys, typeCounts := Tally(data, "bookingType");
          bookingTypeCounts := typeCounts;
          var names, visits := Tally(data, "attractionName");
          TalliedEntries(Column(data, "attractionName"), names, visits);
          var entries := ObjectEntries(names, visits);
          mostVisitedAttractions := Take(SortDesc(entries, VisitsOf), 10);
        case Failure(message) =>
          error := Some(message);
      }
      loading := false;
    }
  }
}
