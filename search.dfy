/**
 * The search filter of the view: the records whose lower-cased common
 * name includes the lower-cased query, in list order.
 */
module Search {
  import opened Text
  import opened Countries

  /** The filter's test: the lower-cased query occurs in the lower-cased common name. */
  predicate Matches(c: Country, query: string): (b: bool)
    ensures b <==> exists i :: OccursAt(Lower(query), Lower(c.name), i)
    ensures query == "" ==> b
  {
    ContainsIff(Lower(c.name), Lower(query));
    ContainsEmpty(Lower(c.name));
    Contains(Lower(c.name), Lower(query))
  }

  /** `Array.prototype.filter` with `Matches` as the test: the matching records, in list order. */
  function Filter(countries: seq<Country>, query: string): (r: seq<Country>)
    ensures |r| <= |countries|
    ensures forall i :: 0 <= i < |r| ==> Matches(r[i], query)
  {
    if countries == [] then []
    else (if Matches(countries[0], query) then [countries[0]] else []) + Filter(countries[1..], query)
  }

  /** `r` is `s` with some elements left out, the rest kept in order. */
  predicate IsSubsequence<T(==)>(r: seq<T>, s: seq<T>)
    decreases |s|
  {
    r == [] || (s != [] && ((r[0] == s[0] && IsSubsequence(r[1..], s[1..])) || IsSubsequence(r, s[1..])))
  }

  lemma {:induction false} SubsequenceMultiset<T>(r: seq<T>, s: seq<T>)
    requires IsSubsequence(r, s)
    ensures multiset(r) <= multiset(s)
    decreases |s|
  {
    if r == [] {
    } else if r[0] == s[0] && IsSubsequence(r[1..], s[1..]) {
      SubsequenceMultiset(r[1..], s[1..]);
      assert r == [r[0]] + r[1..] && s == [s[0]] + s[1..];
    } else {
      SubsequenceMultiset(r, s[1..]);
      assert s == [s[0]] + s[1..];
    }
  }

  /** The filter keeps the records in their original relative order. */
  lemma {:induction false} FilterIsSubsequence(countries: seq<Country>, query: string)
    ensures IsSubsequence(Filter(countries, query), countries)
    decreases |countries|
  {
    if countries != [] {
      FilterIsSubsequence(countries[1..], query);
      var rest := Filter(countries[1..], query);
      if Matches(countries[0], query) {
        assert Filter(countries, query) == [countries[0]] + rest;
        assert ([countries[0]] + rest)[1..] == rest;
      } else {
        assert Filter(countries, query) == rest;
        SubsequenceOfTail(rest, countries);
      }
    }
  }

  lemma SubsequenceOfTail<T>(r: seq<T>, s: seq<T>)
    requires s != [] && IsSubsequence(r, s[1..])
    ensures IsSubsequence(r, s)
  {
  }

  /**
   * Every matching record is kept as often as it occurs in the list and no
   * other record is kept: the filter is sound and complete.
   */
  lemma {:induction false} FilterMultiplicity(countries: seq<Country>, query: string, c: Country)
    ensures multiset(Filter(countries, query))[c] == if Matches(c, query) then multiset(countries)[c] else 0
    decreases |countries|
  {
    if countries != [] {
      FilterMultiplicity(countries[1..], query, c);
      assert countries == [countries[0]] + countries[1..];
    }
  }

  /** `FilterMultiplicity` for every record at once. */
  lemma FilterMultiplicityAll(countries: seq<Country>, query: string)
    ensures forall c :: multiset(Filter(countries, query))[c] == if Matches(c, query) then multiset(countries)[c] else 0
  {
    forall c ensures multiset(Filter(countries, query))[c] == if Matches(c, query) then multiset(countries)[c] else 0 {
      FilterMultiplicity(countries, query, c);
    }
  }

  /** A record is in the result exactly when it is in the list and matches. */
  lemma FilterMembership(countries: seq<Country>, query: string)
    ensures forall c :: c in Filter(countries, query) <==> c in countries && Matches(c, query)
  {
    forall c ensures c in Filter(countries, query) <==> c in countries && Matches(c, query) {
      FilterMultiplicity(countries, query, c);
    }
  }

  /**
   * The filter is the only order-preserving selection that keeps exactly the
   * matching records, each as often as it occurs.
   */
  lemma {:induction false} FilterUnique(countries: seq<Country>, query: string, r: seq<Country>)
    requires IsSubsequence(r, countries)
    requires forall c :: multiset(r)[c] == if Matches(c, query) then multiset(countries)[c] else 0
    ensures r == Filter(countries, query)
    decreases |countries|
  {
    if countries == [] {
      assert r == [];
    } else {
      var x, rest := countries[0], countries[1..];
      assert countries == [x] + rest;
      if Matches(x, query) {
        assert multiset(r)[x] == multiset(countries)[x] > 0;
        assert r != [];
        if r[0] == x && IsSubsequence(r[1..], rest) {
          assert r == [x] + r[1..];
          forall c ensures multiset(r[1..])[c] == if Matches(c, query) then multiset(rest)[c] else 0 {
          }
          FilterUnique(rest, query, r[1..]);
        } else {
          SubsequenceMultiset(r, rest);
          assert false;
        }
      } else {
        if r != [] {
          assert r[0] in multiset(r);
          assert r[0] != x;
        }
        assert IsSubsequence(r, rest);
        forall c ensures multiset(r)[c] == if Matches(c, query) then multiset(rest)[c] else 0 {
        }
        FilterUnique(rest, query, r);
      }
    }
  }

  /** An empty query keeps the whole list. */
  lemma {:induction false} FilterEmptyQuery(countries: seq<Country>)
    ensures Filter(countries, "") == countries
    decreases |countries|
  {
    if countries != [] {
      ContainsEmpty(Lower(countries[0].name));
      FilterEmptyQuery(countries[1..]);
    }
  }

  /** Filtering the filtered list again with the same query changes nothing. */
  lemma {:induction false} FilterIdempotent(countries: seq<Country>, query: string)
    ensures Filter(Filter(countries, query), query) == Filter(countries, query)
    decreases |countries|
  {
    if countries != [] {
      var rest := Filter(countries[1..], query);
      FilterIdempotent(countries[1..], query);
      if Matches(countries[0], query) {
        assert Filter(countries, query) == [countries[0]] + rest;
        assert ([countries[0]] + rest)[0] == countries[0];
        assert ([countries[0]] + rest)[1..] == rest;
      } else {
        assert Filter(countries, query) == rest;
      }
    }
  }

  /** Only the lower-cased query matters: queries that differ in case select the same records. */
  lemma {:induction false} FilterCaseInsensitive(countries: seq<Country>, q1: string, q2: string)
    requires Lower(q1) == Lower(q2)
    ensures Filter(countries, q1) == Filter(countries, q2)
    decreases |countries|
  {
    if countries != [] {
      FilterCaseInsensitive(countries[1..], q1, q2);
    }
  }

  /** Typing more characters only narrows the result: it is the old result filtered by the new query. */
  lemma {:induction false} FilterNarrows(countries: seq<Country>, query: string, more: string)
    ensures Filter(countries, query + more) == Filter(Filter(countries, query), query + more)
    decreases |countries|
  {
    if countries != [] {
      var c := countries[0];
      FilterNarrows(countries[1..], query, more);
      if Matches(c, query + more) {
        LowerAppend(query, more);
        ContainsPrefixOfPattern(Lower(c.name), Lower(query), Lower(more));
        var rest := Filter(countries[1..], query);
        assert ([c] + rest)[1..] == rest;
      } else if Matches(c, query) {
        var rest := Filter(countries[1..], query);
        assert Filter(countries, query) == [c] + rest;
        assert ([c] + rest)[0] == c;
        assert ([c] + rest)[1..] == rest;
        assert Filter([c] + rest, query + more) == Filter(rest, query + more);
        assert Filter(countries, query + more) == Filter(countries[1..], query + more);
      } else {
        assert Filter(countries, query) == Filter(countries[1..], query);
        assert Filter(countries, query + more) == Filter(countries[1..], query + more);
      }
    }
  }

  lemma UzbekistanHasUzb()
    ensures Contains(Lower("Uzbekistan"), Lower("uzb"))
  {
    assert "Uzbekistan" == "Uzb" + "ekistan";
    LowerAppend("Uzb", "ekistan");
    assert Lower("Uzb") == Lower("uzb") == "uzb";
    assert (Lower("Uzb") + Lower("ekistan"))[..3] == "uzb";
  }

  lemma UgandaLacksUzb()
    ensures !Contains(Lower("Uganda"), Lower("uzb"))
  {
    var name := Lower("Uganda");
    assert Lower("uzb") == "uzb";
    assert forall j :: 0 <= j < |name| ==> name[j] != 'z';
    MissingCharNotContained(name, "uzb", 1);
  }

  lemma BrazilLacksUzb()
    ensures !Contains(Lower("Brazil"), Lower("uzb"))
  {
    var name := Lower("Brazil");
    assert Lower("uzb") == "uzb";
    assert forall j :: 0 <= j < |name| ==> name[j] != 'u';
    MissingCharNotContained(name, "uzb", 0);
  }

  lemma FilterFirstOfThree(a: Country, b: Country, c: Country, query: string)
    requires Matches(a, query) && !Matches(b, query) && !Matches(c, query)
    ensures Filter([a, b, c], query) == [a]
  {
    assert [a, b, c][1..] == [b, c] && [b, c][1..] == [c] && [c][1..] == [];
    assert Filter([c], query) == [] + Filter([], query) == [];
    assert Filter([b, c], query) == [] + Filter([c], query);
    assert Filter([a, b, c], query) == [a] + Filter([b, c], query);
  }

  /**
   * Searching "uzb" among Uzbekistan, Uganda and Brazil finds only
   * Uzbekistan, whatever the records' other fields hold.
   */
  lemma UzbekistanSearch(uzbekistan: Country, uganda: Country, brazil: Country)
    requires uzbekistan.name == "Uzbekistan" && uganda.name == "Uganda" && brazil.name == "Brazil"
    ensures Filter([uzbekistan, uganda, brazil], "uzb") == [uzbekistan]
  {
    UzbekistanHasUzb();
    UgandaLacksUzb();
    BrazilLacksUzb();
    FilterFirstOfThree(uzbekistan, uganda, brazil, "uzb");
  }
}
