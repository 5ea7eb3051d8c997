/**
 * The GET handler's filter: a record is listed when it satisfies every
 * query key. The key `open` is read as a boolean; every other key compares
 * the record's field, as text, with the query value.
 */
module Listing {
  import opened Issues
  import opened Sequences

  /** Query string: key to value; a key occurs at most once. */
  type Query = map<string, string>

  function LowerChar(c: char): char {
    if 'A' <= c <= 'Z' then (c as int + 32) as char else c
  }

  /** String.prototype.toLowerCase on ASCII letters. */
  function Lower(s: string): string {
    if s == [] then [] else [LowerChar(s[0])] + Lower(s[1..])
  }

  /** How an `open` query value is read: `true` exactly for "true" in any letter case. */
  predicate OpenQueryValue(v: string) {
    Lower(v) == "true"
  }

  /**
   * String(issue[key]) for a key other than `open`. `render` is the text
   * String() gives for a date, which depends on the host; a key naming no
   * field of the record reads as "undefined".
   */
  function FieldText(x: Issue, key: string, render: Time -> string): string {
    if key == "_id" then x.id
    else if key == "issue_title" then x.issueTitle
    else if key == "issue_text" then x.issueText
    else if key == "created_by" then x.createdBy
    else if key == "assigned_to" then x.assignedTo
    else if key == "status_text" then x.statusText
    else if key == "created_on" then render(x.createdOn)
    else if key == "updated_on" then render(x.updatedOn)
    else "undefined"
  }

  predicate KeyMatches(x: Issue, key: string, value: string, render: Time -> string) {
    if key == "open" then x.open == OpenQueryValue(value)
    else FieldText(x, key, render) == value
  }

  /** The record satisfies every key of the query (an AND over the keys). */
  predicate Matches(x: Issue, q: Query, render: Time -> string) {
    forall key :: key in q ==> KeyMatches(x, key, q[key], render)
  }

  /**
   * Array.prototype.filter with `Matches`: every matching record, each as many
   * times as it occurs, and nothing else.
   */
  function Filter(s: seq<Issue>, q: Query, render: Time -> string): (r: seq<Issue>)
    ensures forall x :: x in r ==> Matches(x, q, render)
    ensures forall x :: multiset(r)[x] == if Matches(x, q, render) then multiset(s)[x] else 0
  {
    if s == [] then []
    else
      assert s == [s[0]] + s[1..];
      var rest := Filter(s[1..], q, render);
      if Matches(s[0], q, render) then [s[0]] + rest else rest
  }

  /** The listed records appear in the collection in the same order. */
  lemma {:induction false} FilterIsSubsequence(s: seq<Issue>, q: Query, render: Time -> string)
    ensures IsSubsequence(Filter(s, q, render), s)
  {
    if s != [] {
      FilterIsSubsequence(s[1..], q, render);
    }
  }

  /** With no query keys the whole collection is listed, in order. */
  lemma {:induction false} FilterNoKeys(s: seq<Issue>, q: Query, render: Time -> string)
    requires |q| == 0
    ensures Filter(s, q, render) == s
  {
    if s != [] {
      FilterNoKeys(s[1..], q, render);
    }
  }

  /** Listing a collection extended at the end lists the old part first. */
  lemma {:induction false} FilterAppend(a: seq<Issue>, b: seq<Issue>, q: Query, render: Time -> string)
    ensures Filter(a + b, q, render) == Filter(a, q, render) + Filter(b, q, render)
  {
    if a == [] {
      assert a + b == b;
    } else {
      assert (a + b)[0] == a[0] && (a + b)[1..] == a[1..] + b;
      FilterAppend(a[1..], b, q, render);
    }
  }

  /** A one-key query is that key's test. */
  lemma SingleKeyQuery(x: Issue, key: string, v: string, render: Time -> string)
    ensures Matches(x, map[key := v], render) <==> KeyMatches(x, key, v, render)
  {
    assert key in map[key := v];
  }

  /** A key naming no field of a record matches only the query value "undefined". */
  lemma UnknownKeyQuery(x: Issue, key: string, v: string, render: Time -> string)
    requires key !in {"open", "_id", "issue_title", "issue_text", "created_by", "assigned_to",
                      "status_text", "created_on", "updated_on"}
    ensures Matches(x, map[key := v], render) <==> v == "undefined"
  {
    SingleKeyQuery(x, key, v, render);
  }

  lemma FilterSingle(x: Issue, q: Query, render: Time -> string)
    ensures Filter([x], q, render) == if Matches(x, q, render) then [x] else []
  {
    assert [x][1..] == [];
  }

  /** `open` query values: case-insensitive "true" selects open records, anything else closed ones. */
  lemma {:induction false} OpenQueryValueCases(v: string)
    ensures OpenQueryValue(v) <==>
      |v| == 4 && v[0] in "tT" && v[1] in "rR" && v[2] in "uU" && v[3] in "eE"
  {
    LowerAt(v);
    if |v| == 4 {
      assert Lower(v) == [LowerChar(v[0]), LowerChar(v[1]), LowerChar(v[2]), LowerChar(v[3])];
    }
  }

  lemma {:induction false} LowerAt(v: string)
    ensures |Lower(v)| == |v|
    ensures forall i :: 0 <= i < |v| ==> Lower(v)[i] == LowerChar(v[i])
  {
    if v != [] {
      LowerAt(v[1..]);
    }
  }

  /**
   * Filtering on `open` alone selects exactly the records whose `open` equals
   * (value is "true" in any case); "false" and every other value select the
   * closed records.
   */
  lemma OpenFilterSelects(s: seq<Issue>, v: string, render: Time -> string)
    ensures var wanted := |v| == 4 && v[0] in "tT" && v[1] in "rR" && v[2] in "uU" && v[3] in "eE";
      forall x :: multiset(Filter(s, map["open" := v], render))[x] ==
        if x.open == wanted then multiset(s)[x] else 0
  {
    OpenQueryValueCases(v);
    var q := map["open" := v];
    forall x ensures Matches(x, q, render) <==> x.open == OpenQueryValue(v) {
      SingleKeyQuery(x, "open", v, render);
    }
  }

  /** Keys combine by AND: a query on two sets of keys filters as one after the other. */
  lemma {:induction false} FilterConjunction(s: seq<Issue>, q1: Query, q2: Query, render: Time -> string)
    requires q1.Keys !! q2.Keys
    ensures Filter(s, q1 + q2, render) == Filter(Filter(s, q1, render), q2, render)
  {
    if s != [] {
      var x := s[0];
      assert Matches(x, q1 + q2, render) <==> Matches(x, q1, render) && Matches(x, q2, render) by {
        if Matches(x, q1, render) && Matches(x, q2, render) {
          forall key | key in q1 + q2 ensures KeyMatches(x, key, (q1 + q2)[key], render) {
            if key in q2 { assert KeyMatches(x, key, q2[key], render); }
            else { assert KeyMatches(x, key, q1[key], render); }
          }
        }
        if Matches(x, q1 + q2, render) {
          forall key | key in q1 ensures KeyMatches(x, key, q1[key], render) {
            assert key !in q2 && (q1 + q2)[key] == q1[key];
          }
          forall key | key in q2 ensures KeyMatches(x, key, q2[key], render) {
            assert (q1 + q2)[key] == q2[key];
          }
        }
      }
      FilterConjunction(s[1..], q1, q2, render);
    }
  }

  /**
   * Keys combine by AND: of an open record by "A", a closed record by "A" and
   * an open record by "B", `created_by=A&open=true` lists only the first.
   */
  lemma AndFilterExample(render: Time -> string)
    ensures var a := Issue("1", "t", "x", "A", "", "", 0, 0, true);
      var b := Issue("2", "t", "x", "A", "", "", 0, 0, false);
      var c := Issue("3", "t", "x", "B", "", "", 0, 0, true);
      Filter([a, b, c], map["created_by" := "A", "open" := "true"], render) == [a]
  {
    var a := Issue("1", "t", "x", "A", "", "", 0, 0, true);
    var b := Issue("2", "t", "x", "A", "", "", 0, 0, false);
    var c := Issue("3", "t", "x", "B", "", "", 0, 0, true);
    var q := map["created_by" := "A", "open" := "true"];
    assert OpenQueryValue("true") by { OpenQueryValueCases("true"); }
    assert Matches(a, q, render) by {
      forall key | key in q ensures KeyMatches(a, key, q[key], render) {
        assert key == "created_by" || key == "open";
      }
    }
    assert !Matches(b, q, render) by {
      assert !KeyMatches(b, "open", q["open"], render);
    }
    assert !Matches(c, q, render) by {
      assert !KeyMatches(c, "created_by", q["created_by"], render);
    }
    FilterSingle(c, q, render);
    assert [b, c] == [b] + [c] && [a, b, c] == [a] + [b, c];
    FilterAppend([b], [c], q, render);
    FilterSingle(b, q, render);
    FilterAppend([a], [b, c], q, render);
    FilterSingle(a, q, render);
  }
}
