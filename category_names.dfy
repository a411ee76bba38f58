/** Resolving an event's category names: the categories whose id the event
    lists, kept in the category collection's order, and their names joined
    with ", ". Both event views do this; the detail card compares ids as
    they are, the event page compares them after `String` coercion. */
module CategoryNames {
  import opened JsValues
  import opened Records

  /** How a category's id is looked up in an event's `categoryIds`. */
  datatype IdComparison =
    | SameValue      // `categoryIds.includes(category.id)`
    | StringCoerced  // `categoryIds.map(String).includes(String(category.id))`

  /** `ids.map(String)` */
  function Stringified(ids: seq<Value>): (r: seq<string>)
    ensures |r| == |ids|
    ensures forall i :: 0 <= i < |ids| ==> r[i] == ToJsString(ids[i])
  {
    if ids == [] then [] else [ToJsString(ids[0])] + Stringified(ids[1..])
  }

  /** Whether the category id `id` counts as listed in `ids`. `includes`
      compares by SameValueZero, which on these values is plain equality
      (NaN included). */
  predicate Listed(cmp: IdComparison, ids: seq<Value>, id: Value) {
    match cmp
    case SameValue => id in ids
    case StringCoerced => ToJsString(id) in Stringified(ids)
  }

  /** `r` is `s` with some elements left out, the rest in their order. */
  predicate IsSubsequence<T(==)>(r: seq<T>, s: seq<T>) {
    r == [] || (s != [] && if r[0] == s[0] then IsSubsequence(r[1..], s[1..]) else IsSubsequence(r, s[1..]))
  }

  /** `categories.filter(c => listed(c.id))`: every category whose id is
      listed, as often as it occurs in the collection and in the
      collection's order; nothing else. */
  function Matched(cmp: IdComparison, ids: seq<Value>, categories: seq<Category>): (r: seq<Category>)
    ensures forall c :: multiset(r)[c] == if Listed(cmp, ids, c.id) then multiset(categories)[c] else 0
    ensures IsSubsequence(r, categories)
  {
    if categories == [] then []
    else
      var rest := Matched(cmp, ids, categories[1..]);
      assert categories == [categories[0]] + categories[1..];
      if Listed(cmp, ids, categories[0].id) then [categories[0]] + rest
      else
        assert rest != [] ==> multiset(rest)[rest[0]] > 0;
        rest
  }

  /** `.map(c => c.name)` */
  function Names(categories: seq<Category>): (r: seq<string>)
    ensures |r| == |categories|
    ensures forall i :: 0 <= i < |categories| ==> r[i] == categories[i].name
  {
    if categories == [] then [] else [categories[0].name] + Names(categories[1..])
  }

  /** `parts.join(sep)` */
  function Join(parts: seq<string>, sep: string): string {
    if parts == [] then ""
    else if |parts| == 1 then parts[0]
    else parts[0] + sep + Join(parts[1..], sep)
  }

  /** The text shown after "Categories:". */
  function CategoryNamesText(cmp: IdComparison, ids: seq<Value>, categories: seq<Category>): string {
    Join(Names(Matched(cmp, ids, categories)), ", ")
  }

  // ---------------------------------------------------------------------
  // The filter is the only order-preserving selection of the listed
  // categories.

  lemma {:induction false} SubsequenceMultiset<T>(r: seq<T>, s: seq<T>)
    requires IsSubsequence(r, s)
    ensures multiset(r) <= multiset(s)
  {
    if r != [] {
      assert s == [s[0]] + s[1..];
      if r[0] == s[0] {
        SubsequenceMultiset(r[1..], s[1..]);
        assert r == [r[0]] + r[1..];
      } else {
        SubsequenceMultiset(r, s[1..]);
      }
    }
  }

  /** Any subsequence of the collection that holds each listed category
      exactly as often as the collection does, and no other category, is
      what the filter returns. */
  lemma {:induction false} MatchedIsUnique(cmp: IdComparison, ids: seq<Value>, categories: seq<Category>, r: seq<Category>)
    requires IsSubsequence(r, categories)
    requires forall c :: multiset(r)[c] == if Listed(cmp, ids, c.id) then multiset(categories)[c] else 0
    ensures r == Matched(cmp, ids, categories)
  {
    if categories == [] {
      return;
    }
    var x, s' := categories[0], categories[1..];
    assert categories == [x] + s';
    if r != [] && r[0] == x {
      assert r == [x] + r[1..];
      assert Listed(cmp, ids, x.id) by { assert multiset(r)[x] > 0; }
      MatchedIsUnique(cmp, ids, s', r[1..]);
    } else {
      if r != [] {
        SubsequenceMultiset(r, s');
      }
      assert multiset(categories)[x] == multiset(s')[x] + 1;
      assert !Listed(cmp, ids, x.id);
      assert IsSubsequence(r, s');
      MatchedIsUnique(cmp, ids, s', r);
    }
  }

  // ---------------------------------------------------------------------
  // Only which ids are listed matters.

  /** Two id lists that list the same categories select the same ones. */
  lemma {:induction false} MatchedRespectsListing(cmp1: IdComparison, ids1: seq<Value>,
                                                  cmp2: IdComparison, ids2: seq<Value>,
                                                  categories: seq<Category>)
    requires forall c :: c in categories ==> (Listed(cmp1, ids1, c.id) <==> Listed(cmp2, ids2, c.id))
    ensures Matched(cmp1, ids1, categories) == Matched(cmp2, ids2, categories)
  {
    if categories != [] {
      assert categories[0] in categories;
      MatchedRespectsListing(cmp1, ids1, cmp2, ids2, categories[1..]);
    }
  }

  lemma ListedMonotone(cmp: IdComparison, ids1: seq<Value>, ids2: seq<Value>, id: Value)
    requires forall v :: v in ids1 ==> v in ids2
    requires Listed(cmp, ids1, id)
    ensures Listed(cmp, ids2, id)
  {
    if cmp.StringCoerced? {
      var s1 := Stringified(ids1);
      var i :| 0 <= i < |s1| && s1[i] == ToJsString(id);
      assert ids1[i] in ids2;
      var j :| 0 <= j < |ids2| && ids2[j] == ids1[i];
      assert Stringified(ids2)[j] == ToJsString(id);
    }
  }

  /** Reordering `categoryIds` or repeating an id in it changes nothing:
      the result follows the collection, not the id list, and a repeated
      id does not repeat a name. */
  lemma MatchedIgnoresIdOrderAndRepeats(cmp: IdComparison, ids1: seq<Value>, ids2: seq<Value>, categories: seq<Category>)
    requires forall v :: v in ids1 <==> v in ids2
    ensures Matched(cmp, ids1, categories) == Matched(cmp, ids2, categories)
  {
    forall c | c in categories
      ensures Listed(cmp, ids1, c.id) <==> Listed(cmp, ids2, c.id)
    {
      if Listed(cmp, ids1, c.id) { ListedMonotone(cmp, ids1, ids2, c.id); }
      if Listed(cmp, ids2, c.id) { ListedMonotone(cmp, ids2, ids1, c.id); }
    }
    MatchedRespectsListing(cmp, ids1, cmp, ids2, categories);
  }

  lemma {:induction false} StringifiedConcat(a: seq<Value>, b: seq<Value>)
    ensures Stringified(a + b) == Stringified(a) + Stringified(b)
  {
    if a == [] {
      assert a + b == b;
    } else {
      var ab := a + b;
      assert ab[0] == a[0] && ab[1..] == a[1..] + b;
      StringifiedConcat(a[1..], b);
      assert Stringified(ab) == [ToJsString(a[0])] + Stringified(a[1..] + b);
    }
  }

  /** An id that no category has contributes nothing and causes no error,
      wherever it stands in `categoryIds`. */
  lemma MatchedIgnoresUnknownId(cmp: IdComparison, before: seq<Value>, unknown: Value, after: seq<Value>,
                                categories: seq<Category>)
    requires forall c :: c in categories ==> !Listed(cmp, [unknown], c.id)
    ensures Matched(cmp, before + [unknown] + after, categories) == Matched(cmp, before + after, categories)
  {
    StringifiedConcat(before, [unknown]);
    StringifiedConcat(before + [unknown], after);
    StringifiedConcat(before, after);
    MatchedRespectsListing(cmp, before + [unknown] + after, cmp, before + after, categories);
  }

  // ---------------------------------------------------------------------
  // The two comparisons

  /** A category the detail card matches is matched on the event page too. */
  lemma SameValueWithinCoerced(ids: seq<Value>, categories: seq<Category>, c: Category)
    requires c in Matched(SameValue, ids, categories)
    ensures c in Matched(StringCoerced, ids, categories)
  {
    assert multiset(Matched(SameValue, ids, categories))[c] > 0;
    var i :| 0 <= i < |ids| && ids[i] == c.id;
    assert Stringified(ids)[i] == ToJsString(c.id);
    assert multiset(Matched(StringCoerced, ids, categories))[c] == multiset(categories)[c];
  }

  /** When every id on both sides is a number, the two comparisons agree. */
  lemma ComparisonsAgreeOnNumbers(ids: seq<Value>, categories: seq<Category>)
    requires forall v :: v in ids ==> v.Num?
    requires forall c :: c in categories ==> c.id.Num?
    ensures Matched(SameValue, ids, categories) == Matched(StringCoerced, ids, categories)
  {
    forall c | c in categories
      ensures Listed(SameValue, ids, c.id) <==> Listed(StringCoerced, ids, c.id)
    {
      if Listed(StringCoerced, ids, c.id) {
        var i :| 0 <= i < |ids| && Stringified(ids)[i] == ToJsString(c.id);
        assert ids[i] in ids;
        NumeralInjective(ids[i].n, c.id.n);
      }
      if Listed(SameValue, ids, c.id) {
        var i :| 0 <= i < |ids| && ids[i] == c.id;
        assert Stringified(ids)[i] == ToJsString(c.id);
      }
    }
    MatchedRespectsListing(SameValue, ids, StringCoerced, ids, categories);
  }

  /** Where they part: an id that arrives as the string "1" matches the
      category with number id 1 on the event page but not on the card. */
  lemma ComparisonsDifferOnStringIds()
    ensures CategoryNamesText(SameValue, [Str("1")], [Category(Num(1), "Sports")]) == ""
    ensures CategoryNamesText(StringCoerced, [Str("1")], [Category(Num(1), "Sports")]) == "Sports"
  {
    var cats := [Category(Num(1), "Sports")];
    assert ToJsString(Num(1)) == "1";
    assert Stringified([Str("1")]) == ["1"];
    assert Matched(SameValue, [Str("1")], cats) == [];
    assert Matched(StringCoerced, [Str("1")], cats) == cats;
  }

  // ---------------------------------------------------------------------
  // Joining

  /** Appending a part appends the separator and the part: the separator
      only ever stands between two parts, never at the end. */
  lemma {:induction false} JoinAppend(parts: seq<string>, last: string, sep: string)
    requires parts != []
    ensures Join(parts + [last], sep) == Join(parts, sep) + sep + last
  {
    if |parts| > 1 {
      JoinAppend(parts[1..], last, sep);
      assert (parts + [last])[1..] == parts[1..] + [last];
    }
  }

  function TotalLength(parts: seq<string>): nat {
    if parts == [] then 0 else |parts[0]| + TotalLength(parts[1..])
  }

  /** The joined text is the parts plus one separator between each two
      neighbours. */
  lemma {:induction false} JoinLength(parts: seq<string>, sep: string)
    ensures |Join(parts, sep)| == TotalLength(parts) + if parts == [] then 0 else (|parts| - 1) * |sep|
  {
    if |parts| > 1 {
      JoinLength(parts[1..], sep);
    }
  }

  /** An example with the three categories the edit form's checkboxes offer
      (src/components/EventEditForm.jsx:208-210): Sports (1), Games (2), Relaxation (3)
      and `categoryIds` [2, 1] give "Sports, Games", in collection order. */
  lemma SportsGamesExample()
    ensures CategoryNamesText(SameValue, [Num(2), Num(1)],
              [Category(Num(1), "Sports"), Category(Num(2), "Games"), Category(Num(3), "Relaxation")])
            == "Sports, Games"
  {
    var sports, games := Category(Num(1), "Sports"), Category(Num(2), "Games");
    SportsGamesMatched();
    assert Names([sports, games]) == ["Sports", "Games"];
    assert Join(["Sports", "Games"], ", ") == "Sports" + ", " + "Games";
  }

  /** The filter step of `SportsGamesExample`. */
  lemma SportsGamesMatched()
    ensures Matched(SameValue, [Num(2), Num(1)],
              [Category(Num(1), "Sports"), Category(Num(2), "Games"), Category(Num(3), "Relaxation")])
            == [Category(Num(1), "Sports"), Category(Num(2), "Games")]
  {
    var ids := [Num(2), Num(1)];
    var sports, games, relax := Category(Num(1), "Sports"), Category(Num(2), "Games"), Category(Num(3), "Relaxation");
    var cats := [sports, games, relax];
    assert Matched(SameValue, ids, [relax]) == [] by {
      assert !Listed(SameValue, ids, relax.id);
      assert [relax][1..] == [];
    }
    assert Matched(SameValue, ids, [games, relax]) == [games] by {
      assert [games, relax][1..] == [relax];
    }
    assert Matched(SameValue, ids, cats) == [sports, games] by {
      assert cats[1..] == [games, relax];
    }
  }

  /** Nothing matched, nothing shown. */
  lemma NoMatchNoText(cmp: IdComparison, ids: seq<Value>, categories: seq<Category>)
    requires forall c :: c in categories ==> !Listed(cmp, ids, c.id)
    ensures CategoryNamesText(cmp, ids, categories) == ""
  {
  }
}
