/** The `clients` table as the endpoints see it: a sequence of rows, two
    kinds of filtered select, and queries that may fail. */
module RecordStore {
  import opened Text
  import opened Records

  /** The two filters the search issues: `cpf eq term` and
      `name ilike '%term%'`. */
  datatype Filter = CpfEquals(term: string) | NameILike(term: string)

  /** `cpf eq term` is exact and case-sensitive; `name ilike '%term%'`
      holds when the folded term occurs somewhere in the folded name. */
  predicate Matches(row: StoredClient, f: Filter)
    ensures f.CpfEquals? ==> (Matches(row, f) <==> row.cpf == f.term)
    ensures f.NameILike? ==> (Matches(row, f) <==> exists at: nat :: OccursAt(Lower(row.name), Lower(f.term), at))
  {
    match f
    case CpfEquals(term) => row.cpf == term
    case NameILike(term) => ContainsIgnoringCase(row.name, term)
  }

  /** The rows that pass a filter, in table order. */
  function Select(rows: seq<StoredClient>, f: Filter): (r: seq<StoredClient>)
    ensures |r| <= |rows|
  {
    if rows == [] then [] else Kept(rows[0], f) + Select(rows[1..], f)
  }

  function Kept(row: StoredClient, f: Filter): (r: seq<StoredClient>)
    ensures r == [] || r == [row]
  {
    if Matches(row, f) then [row] else []
  }

  /** A filtered query holds exactly the table rows that pass the filter. */
  lemma {:induction false} SelectMembers(rows: seq<StoredClient>, f: Filter)
    ensures forall x :: x in Select(rows, f) <==> x in rows && Matches(x, f)
  {
    if rows != [] {
      SelectMembers(rows[1..], f);
      assert rows == [rows[0]] + rows[1..];
    }
  }

  /** Filtering keeps the table order: it distributes over concatenation. */
  lemma {:induction false} SelectAppend(a: seq<StoredClient>, b: seq<StoredClient>, f: Filter)
    ensures Select(a + b, f) == Select(a, f) + Select(b, f)
  {
    if a == [] {
      assert a + b == b;
    } else {
      var head := Kept(a[0], f);
      var rest := a[1..];
      var ab := a + b;
      assert ab[0] == a[0];
      assert ab[1..] == rest + b;
      SelectAppend(rest, b, f);
      var x, y := Select(rest, f), Select(b, f);
      assert head + (x + y) == (head + x) + y;
    }
  }

  /** Every matching row is kept as often as it occurs, and nothing else. */
  lemma {:induction false} SelectCounts(rows: seq<StoredClient>, f: Filter, x: StoredClient)
    ensures multiset(Select(rows, f))[x] == if Matches(x, f) then multiset(rows)[x] else 0
  {
    if rows != [] {
      var head := Kept(rows[0], f);
      SelectCounts(rows[1..], f, x);
      assert rows == [rows[0]] + rows[1..];
      assert multiset(rows) == multiset([rows[0]]) + multiset(rows[1..]);
      assert multiset(Select(rows, f)) == multiset(head) + multiset(Select(rows[1..], f));
    }
  }

  /** The filter comes back empty exactly when no row passes it. */
  lemma {:induction false} SelectEmpty(rows: seq<StoredClient>, f: Filter)
    ensures Select(rows, f) == [] <==> forall k :: 0 <= k < |rows| ==> !Matches(rows[k], f)
  {
    if rows != [] {
      SelectEmpty(rows[1..], f);
      assert forall k :: 1 <= k < |rows| ==> rows[k] == rows[1..][k - 1];
    }
  }

  /** A filter that every row passes returns the whole table. */
  lemma {:induction false} SelectEveryRow(rows: seq<StoredClient>, f: Filter)
    requires forall k :: 0 <= k < |rows| ==> Matches(rows[k], f)
    ensures Select(rows, f) == rows
  {
    if rows != [] {
      SelectEveryRow(rows[1..], f);
    }
  }

  /** The table together with the queries that raise, each with the text of
      the exception it raises. */
  datatype Store = Store(rows: seq<StoredClient>, failures: map<Filter, string>)

  datatype QueryResult = Rows(data: seq<StoredClient>) | QueryError(message: string)

  /** One filtered select: the matching rows, or the exception the store
      raises for that query. */
  function Execute(store: Store, f: Filter): (q: QueryResult)
    ensures f in store.failures <==> q.QueryError?
    ensures q.QueryError? ==> q.message == store.failures[f]
    ensures q.Rows? ==> forall x :: x in q.data <==> x in store.rows && Matches(x, f)
  {
    SelectMembers(store.rows, f);
    if f in store.failures then QueryError(store.failures[f]) else Rows(Select(store.rows, f))
  }
}
