/**
 * CombinedQuery: several simple statements sent together. Its parameter
 * count is the sum of its parts, a statement is addressed by a 0-based id,
 * and its text is the statements' SQL joined by ";\n".
 */
module CombinedQueries {
  import opened Wrappers
  import opened Faults
  import opened QueryParameters
  import Text

  /** One statement: its SQL text and the number of parameters it declares. */
  datatype SimpleQuery = SimpleQuery(sql: string, parameterCount: nat)

  /** The parameters a list of statements declares between them. */
  function SumParams(qs: seq<SimpleQuery>): (total: nat)
    ensures forall i :: 0 <= i < |qs| ==> qs[i].parameterCount <= total
  {
    if qs == [] then 0 else qs[0].parameterCount + SumParams(qs[1..])
  }

  lemma {:induction false} SumParamsAppend(a: seq<SimpleQuery>, b: seq<SimpleQuery>)
    ensures SumParams(a + b) == SumParams(a) + SumParams(b)
  {
    if a != [] {
      assert (a + b)[1..] == a[1..] + b;
      SumParamsAppend(a[1..], b);
    } else {
      assert a + b == b;
    }
  }

  /** The two fields of the class; only Make builds the values that count as CombinedQuery. */
  datatype CombinedQueryFields = CombinedQueryFields(queries: seq<SimpleQuery>, params: nat)

  /** The constructor fixes params to the sum of the parts, and nothing changes it afterwards. */
  type CombinedQuery = c: CombinedQueryFields | c.params == SumParams(c.queries)
    witness CombinedQueryFields([], 0)

  /** new CombinedQuery(queries) */
  function Make(queries: seq<SimpleQuery>): (c: CombinedQuery)
    ensures c.queries == queries
    ensures forall i :: 0 <= i < |queries| ==> queries[i].parameterCount <= c.params
  {
    CombinedQueryFields(queries, SumParams(queries))
  }

  /** getSubqueries and parameterCount give back exactly what the constructor took and computed. */
  lemma MakeAccessors(queries: seq<SimpleQuery>)
    ensures GetSubqueries(Make(queries)) == queries
    ensures ParameterCount(Make(queries)) == SumParams(queries)
    ensures queries == [] ==> ParameterCount(Make(queries)) == 0
  {
  }

  /** The parameter count of a concatenation of batches is the sum of their counts. */
  lemma ParameterCountOfConcat(a: seq<SimpleQuery>, b: seq<SimpleQuery>)
    ensures ParameterCount(Make(a + b)) == ParameterCount(Make(a)) + ParameterCount(Make(b))
  {
    SumParamsAppend(a, b);
  }

  /** Lombok's value equality: two values are equal exactly when they were built from equal lists. */
  lemma MakeEqualIff(a: seq<SimpleQuery>, b: seq<SimpleQuery>)
    ensures Make(a) == Make(b) <==> a == b
  {
  }

  function GetSubqueries(c: CombinedQuery): (qs: seq<SimpleQuery>)
    ensures SumParams(qs) == c.params
  {
    c.queries
  }

  function ParameterCount(c: CombinedQuery): (n: nat)
    ensures forall i :: 0 <= i < |c.queries| ==> c.queries[i].parameterCount <= n
    ensures c.queries == [] ==> n == 0
  {
    c.params
  }

  /** createParameters: an empty parameter list with one slot per declared parameter. */
  function CreateParameters(c: CombinedQuery): (ps: seq<Param>)
    ensures |ps| == SumParams(c.queries)
    ensures forall i :: 0 <= i < |ps| ==> ps[i] == UNSET
  {
    seq(c.params, _ => UNSET)
  }

  /** statement(id): the id-th statement; List.get throws for an id outside the list. */
  function Statement(c: CombinedQuery, id: int): (r: Result<SimpleQuery, Fault>)
    ensures r.Success? <==> 0 <= id < |c.queries|
    ensures r.Success? ==> r.value == c.queries[id]
    ensures r.Failure? ==> r.error == IndexOutOfBounds(id, |c.queries|)
  {
    if 0 <= id < |c.queries| then Success(c.queries[id])
    else Failure(IndexOutOfBounds(id, |c.queries|))
  }

  function Sqls(qs: seq<SimpleQuery>): (r: seq<string>)
    ensures |r| == |qs| && forall i :: 0 <= i < |qs| ==> r[i] == qs[i].sql
  {
    seq(|qs|, i requires 0 <= i < |qs| => qs[i].sql)
  }

  /** toString: the SQL of every statement, separated by ";\n", with none before the first or after the last. */
  function ToString(c: CombinedQuery): (s: string)
    ensures c.queries == [] ==> s == ""
    ensures |c.queries| == 1 ==> s == c.queries[0].sql
    ensures c.queries != [] ==> |c.queries[0].sql| <= |s| && s[..|c.queries[0].sql|] == c.queries[0].sql
    ensures c.queries != [] ==>
      var last := c.queries[|c.queries| - 1].sql;
      |last| <= |s| && s[|s| - |last|..] == last
  {
    Text.Join(Sqls(c.queries), ";\n")
  }

  /** Adding a statement to a non-empty batch adds one separator and that statement's SQL. */
  lemma ToStringSnoc(qs: seq<SimpleQuery>, q: SimpleQuery)
    requires qs != []
    ensures ToString(Make(qs + [q])) == ToString(Make(qs)) + ";\n" + q.sql
  {
    assert Sqls(qs + [q]) == Sqls(qs) + [q.sql];
    Text.JoinSnoc(Sqls(qs), q.sql, ";\n");
  }
}
