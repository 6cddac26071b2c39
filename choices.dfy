/**
 The choice list edited by the field builder: its entries, the placeholder
 entry it starts with, and the filter that removes entries by text.
 */
module ChoiceList {

  /** One entry of the choice list: the text shown to the user and its id. */
  datatype Choice = Choice(text: string, id: string)

  /** The entry every choice list starts with; it is never rendered. */
  const Placeholder: Choice := Choice("", "PLACEHOLDER")

  /** The largest number of entries the "+" button lets a user add. */
  const MAX_CHOICES: nat := 2

  /** Some entry of `cs` has text `t` (the exact, case-sensitive `===` test). */
  ghost predicate Contains(cs: seq<Choice>, t: string)
  {
    exists i :: 0 <= i < |cs| && cs[i].text == t
  }

  /** No two entries of `cs` share a text. */
  ghost predicate Distinct(cs: seq<Choice>)
  {
    forall i, j :: 0 <= i < j < |cs| ==> cs[i].text != cs[j].text
  }

  /** The shape every list reachable from the initial one has. */
  ghost predicate WellFormed(cs: seq<Choice>)
  {
    |cs| >= 1 && cs[0] == Placeholder && Distinct(cs)
  }

  /** The entries of `cs` whose text differs from `t`, in their original
      order: the filter that the "-" button applies. */
  function FilterOut(cs: seq<Choice>, t: string): (r: seq<Choice>)
    ensures |r| <= |cs|
    ensures forall c :: c in r <==> c in cs && c.text != t
    ensures |r| == |cs| <==> !Contains(cs, t)
  {
    if cs == [] then []
    else if cs[0].text == t then
      assert Contains(cs, t);
      FilterOut(cs[1..], t)
    else
      var rest := FilterOut(cs[1..], t);
      assert Contains(cs, t) ==> Contains(cs[1..], t) by {
        if Contains(cs, t) {
          var i :| 0 <= i < |cs| && cs[i].text == t;
          assert cs[1..][i - 1].text == t;
        }
      }
      assert Contains(cs[1..], t) ==> Contains(cs, t) by {
        if Contains(cs[1..], t) {
          var i :| 0 <= i < |cs[1..]| && cs[1..][i].text == t;
          assert cs[i + 1].text == t;
        }
      }
      [cs[0]] + rest
  }

  /** Filtering distributes over concatenation: the filter keeps the relative
      order of the entries it keeps. */
  lemma {:induction false} FilterOutConcat(a: seq<Choice>, b: seq<Choice>, t: string)
    ensures FilterOut(a + b, t) == FilterOut(a, t) + FilterOut(b, t)
  {
    if a == [] {
      assert a + b == b;
    } else {
      assert (a + b)[1..] == a[1..] + b;
      FilterOutConcat(a[1..], b, t);
    }
  }

  /** A text that matches nothing leaves the list as it is. */
  lemma {:induction false} FilterOutAbsent(cs: seq<Choice>, t: string)
    requires !Contains(cs, t)
    ensures FilterOut(cs, t) == cs
  {
    if cs != [] {
      assert cs[0].text != t;
      forall k | 0 <= k < |cs[1..]|
        ensures cs[1..][k].text != t
      {
        assert cs[1..][k] == cs[k + 1];
      }
      FilterOutAbsent(cs[1..], t);
      assert cs == [cs[0]] + cs[1..];
    }
  }

  /** On a list with distinct texts, no entry before or after entry `i` has
      its text. */
  lemma DistinctSplit(cs: seq<Choice>, i: nat)
    requires Distinct(cs) && i < |cs|
    ensures !Contains(cs[..i], cs[i].text)
    ensures !Contains(cs[i + 1..], cs[i].text)
  {
    forall k | 0 <= k < i
      ensures cs[..i][k].text != cs[i].text
    {
      assert cs[..i][k] == cs[k];
    }
    var after := cs[i + 1..];
    forall k | 0 <= k < |after|
      ensures after[k].text != cs[i].text
    {
      assert after[k] == cs[i + 1 + k];
    }
  }

  /** On a list with distinct texts, filtering a present text removes exactly
      the one entry that has it and keeps all others in place. */
  lemma FilterOutUnique(cs: seq<Choice>, t: string, i: nat)
    requires Distinct(cs)
    requires i < |cs| && cs[i].text == t
    ensures FilterOut(cs, t) == cs[..i] + cs[i + 1..]
    ensures |FilterOut(cs, t)| == |cs| - 1
  {
    var before, single, after := cs[..i], [cs[i]], cs[i + 1..];
    DistinctSplit(cs, i);
    calc {
      FilterOut(cs, t);
      { assert cs == (before + single) + after; }
      FilterOut((before + single) + after, t);
      { FilterOutConcat(before + single, after, t); }
      FilterOut(before + single, t) + FilterOut(after, t);
      { FilterOutConcat(before, single, t); FilterOutAbsent(after, t); }
      FilterOut(before, t) + FilterOut(single, t) + after;
      { FilterOutAbsent(before, t); assert FilterOut(single, t) == FilterOut(single[1..], t) == []; }
      before + [] + after;
      { assert before + [] == before; }
      before + after;
    }
  }

  /** Filtering keeps texts distinct. */
  lemma {:induction false} FilterOutDistinct(cs: seq<Choice>, t: string)
    requires Distinct(cs)
    ensures Distinct(FilterOut(cs, t))
  {
    if cs != [] {
      FilterOutDistinct(cs[1..], t);
      if cs[0].text != t {
        var rest := FilterOut(cs[1..], t);
        forall j | 0 <= j < |rest|
          ensures cs[0].text != rest[j].text
        {
          assert rest[j] in cs[1..];
          var k :| 0 <= k < |cs[1..]| && cs[1..][k] == rest[j];
          assert cs[k + 1] == rest[j];
        }
      }
    }
  }

  /** Filtering a text the placeholder does not carry keeps the list well formed. */
  lemma FilterOutWellFormed(cs: seq<Choice>, t: string)
    requires WellFormed(cs) && t != ""
    ensures WellFormed(FilterOut(cs, t))
    ensures FilterOut(cs, t)[0] == Placeholder
  {
    FilterOutDistinct(cs, t);
  }

  /** Appending an entry whose text is absent keeps the list well formed. */
  lemma AppendWellFormed(cs: seq<Choice>, c: Choice)
    requires WellFormed(cs) && !Contains(cs, c.text)
    ensures WellFormed(cs + [c])
  {
    var r := cs + [c];
    forall i, j | 0 <= i < j < |r|
      ensures r[i].text != r[j].text
    {
      if j == |cs| {
        assert r[i] == cs[i];
      }
    }
  }
}
