/** Several texts written as one, with one line feed between neighbours. */
module Spelling {
  import opened Prelude

  /** The places of the texts that are there, all of them and in order. */
  ghost predicate Lists(given: seq<Option<string>>, at: seq<nat>) {
    && (forall k | 0 <= k < |at| :: at[k] < |given| && given[at[k]].Some?)
    && (forall k, l | 0 <= k < l < |at| :: at[k] < at[l])
    && (forall i | 0 <= i < |given| && given[i].Some? :: i in at)
  }

  function Start(ends: seq<nat>, k: nat): nat
    requires k <= |ends|
  {
    if k == 0 then 0 else ends[k - 1] + 1
  }

  /** The k-th text lies in `s` up to place `ends[k]`, a line feed before it unless it is the first. */
  ghost predicate TextAt(text: Option<string>, ends: seq<nat>, s: string, k: nat)
    requires k < |ends|
  {
    && Start(ends, k) <= ends[k] <= |s|
    && text == Some(s[Start(ends, k)..ends[k]])
    && (k > 0 ==> s[ends[k - 1]] == '\n')
  }

  ghost predicate SpelledAt(given: seq<Option<string>>, at: seq<nat>, ends: seq<nat>, s: string) {
    && Lists(given, at)
    && |ends| == |at|
    && |s| == (if ends == [] then 0 else ends[|ends| - 1])
    && forall k | 0 <= k < |at| :: TextAt(given[at[k]], ends, s, k)
  }

  /** `s` is the texts that are there, in order, with one line feed between neighbours. */
  ghost predicate SpellsOut(given: seq<Option<string>>, s: string) {
    exists at, ends :: SpelledAt(given, at, ends, s)
  }

  /** The one text that does; `None` if no text is there. */
  function Spelt(given: seq<Option<string>>): Option<string> {
    if given == [] then None
    else
      var before := Spelt(given[..|given| - 1]);
      match given[|given| - 1]
      case None => before
      case Some(t) => if before.None? then Some(t) else Some(before.value + "\n" + t)
  }

  lemma AddPlace(given: seq<Option<string>>, last: Option<string>, at: seq<nat>)
    requires Lists(given, at)
    ensures Lists(given + [last], if last.Some? then at + [|given|] else at)
  {
    if last.Some? {
      var at' := at + [|given|];
      assert at'[|at|] == |given|;
      assert forall i | i in at :: i in at';
    }
  }

  /** One more text after a line feed, or the first. */
  lemma AddText(given: seq<Option<string>>, t: string, at: seq<nat>, ends: seq<nat>, s: string)
    requires SpelledAt(given, at, ends, s)
    ensures var s' := if at == [] then t else s + "\n" + t;
            SpelledAt(given + [Some(t)], at + [|given|], ends + [|s'|], s')
  {
    hide Lists, TextAt;
    AddPlace(given, Some(t), at);
    var s' := if at == [] then t else s + "\n" + t;
    var given', at', ends' := given + [Some(t)], at + [|given|], ends + [|s'|];
    PlacesWithin(given, at);
    forall k | 0 <= k < |at'| ensures TextAt(given'[at'[k]], ends', s', k) {
      if k < |at| {
        assert TextAt(given[at[k]], ends, s, k);
        assert s' == s + ("\n" + t);
        TextStays(given[at[k]], ends, s, "\n" + t, k);
      } else {
        NewText(t, ends, s);
      }
    }
  }

  lemma TextStays(text: Option<string>, ends: seq<nat>, s: string, more: string, k: nat)
    requires k < |ends| && TextAt(text, ends, s, k)
    ensures TextAt(text, ends + [|s + more|], s + more, k)
  {
    Within(s, more, Start(ends, k), ends[k]);
  }

  lemma NewText(t: string, ends: seq<nat>, s: string)
    requires |s| == (if ends == [] then 0 else ends[|ends| - 1])
    ensures var s' := if ends == [] then t else s + "\n" + t;
            TextAt(Some(t), ends + [|s'|], s', |ends|)
  {
    var s' := if ends == [] then t else s + "\n" + t;
    assert s'[(if ends == [] then 0 else |s| + 1)..|s'|] == t;
  }

  lemma Within(s: string, more: string, i: nat, j: nat)
    requires i <= j <= |s|
    ensures (s + more)[i..j] == s[i..j]
  {
  }

  lemma PlacesWithin(given: seq<Option<string>>, at: seq<nat>)
    requires Lists(given, at)
    ensures forall k | 0 <= k < |at| :: at[k] < |given|
  {
  }

  lemma {:induction false} SpeltIsSpelled(given: seq<Option<string>>) returns (at: seq<nat>, ends: seq<nat>)
    ensures SpelledAt(given, at, ends, Spelt(given).GetOr(""))
    ensures at == [] <==> Spelt(given).None?
  {
    at, ends := [], [];
    if given != [] {
      var init, last := given[..|given| - 1], given[|given| - 1];
      assert given == init + [last];
      at, ends := SpeltIsSpelled(init);
      if last.Some? {
        AddText(init, last.value, at, ends, Spelt(init).GetOr(""));
        at, ends := at + [|init|], ends + [|Spelt(given).value|];
      } else {
        AddPlace(init, last, at);
      }
    }
  }

  lemma PlaceTakenOff(given: seq<Option<string>>, at: seq<nat>)
    requires given != [] && Lists(given, at)
    ensures var n := |given| - 1;
            if given[n].Some? then at != [] && at[|at| - 1] == n && Lists(given[..n], at[..|at| - 1])
            else Lists(given[..n], at)
  {
  }

  lemma {:induction false} EndsAscend(given: seq<Option<string>>, at: seq<nat>, ends: seq<nat>, s: string,
                                      k: nat, l: nat)
    requires SpelledAt(given, at, ends, s) && k <= l < |at|
    ensures ends[k] <= ends[l]
    decreases l
  {
    if k < l {
      assert TextAt(given[at[l]], ends, s, l);
      EndsAscend(given, at, ends, s, k, l - 1);
    }
  }

  /** A text stays where it is when the last text is taken off. */
  lemma TextRemains(text: Option<string>, ends: seq<nat>, s: string, k: nat)
    requires k < |ends| - 1 && TextAt(text, ends, s, k) && ends[k] <= ends[|ends| - 2] <= |s|
    ensures TextAt(text, ends[..|ends| - 1], s[..ends[|ends| - 2]], k)
  {
    var end := ends[|ends| - 2];
    assert s == s[..end] + s[end..];
    Within(s[..end], s[end..], Start(ends, k), ends[k]);
  }

  lemma TextTakenOff(given: seq<Option<string>>, at: seq<nat>, ends: seq<nat>, s: string)
    requires given != [] && given[|given| - 1].Some? && SpelledAt(given, at, ends, s)
    ensures var m := |at| - 1;
            && m >= 0
            && (m > 0 ==> ends[m - 1] < |s| && s == s[..ends[m - 1]] + "\n" + s[ends[m - 1] + 1..])
            && given[|given| - 1].value == s[if m == 0 then 0 else ends[m - 1] + 1..]
            && SpelledAt(given[..|given| - 1], at[..m], ends[..m], if m == 0 then "" else s[..ends[m - 1]])
  {
    var n, m := |given| - 1, |at| - 1;
    PlaceTakenOff(given, at);
    assert TextAt(given[at[m]], ends, s, m);
    forall k | 0 <= k < m
      ensures TextAt(given[..n][at[..m][k]], ends[..m], if m == 0 then "" else s[..ends[m - 1]], k)
    {
      assert TextAt(given[at[k]], ends, s, k);
      EndsAscend(given, at, ends, s, k, m - 1);
      TextRemains(given[at[k]], ends, s, k);
    }
  }

  lemma {:induction false} SpelledIsSpelt(given: seq<Option<string>>, at: seq<nat>, ends: seq<nat>, s: string)
    requires SpelledAt(given, at, ends, s)
    ensures s == Spelt(given).GetOr("") && (at == [] <==> Spelt(given).None?)
  {
    if given != [] {
      var n, m := |given| - 1, |at| - 1;
      PlaceTakenOff(given, at);
      if given[n].None? {
        assert forall k | 0 <= k < |at| :: given[..n][at[k]] == given[at[k]];
        SpelledIsSpelt(given[..n], at, ends, s);
      } else {
        TextTakenOff(given, at, ends, s);
        SpelledIsSpelt(given[..n], at[..m], ends[..m], if m == 0 then "" else s[..ends[m - 1]]);
      }
    }
  }

  lemma SpelledIff(given: seq<Option<string>>, s: string)
    ensures SpellsOut(given, s) <==> s == Spelt(given).GetOr("")
  {
    if SpellsOut(given, s) {
      var at, ends :| SpelledAt(given, at, ends, s);
      SpelledIsSpelt(given, at, ends, s);
    }
    var at, ends := SpeltIsSpelled(given);
  }
}
