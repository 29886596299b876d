/** The planner's greedy diverse selection.

    `SelectDiverse` repeatedly takes the candidate with the greatest key (score plus a bonus for a
    family not yet chosen, then fewer reasons, then the larger id). The reference is the value of a
    set: its score sum plus the bonus once per distinct family. */
module GreedySelection {
  import opened Ordering

  datatype Ranked = Ranked(id: string, family: string, score: real, reasons: nat)

  function Gain(c: Ranked, families: set<string>, bonus: real): real {
    c.score + (if c.family in families then 0.0 else bonus)
  }

  predicate KeyLess(a: Ranked, b: Ranked, families: set<string>, bonus: real) {
    var x, y := Gain(a, families, bonus), Gain(b, families, bonus);
    || x < y
    || (x == y && a.reasons > b.reasons)
    || (x == y && a.reasons == b.reasons && TextLess(a.id, b.id))
  }

  lemma KeyLessTransitive(a: Ranked, b: Ranked, c: Ranked, families: set<string>, bonus: real)
    requires KeyLess(a, b, families, bonus) && KeyLess(b, c, families, bonus)
    ensures KeyLess(a, c, families, bonus)
  {
    if TextLess(a.id, b.id) && TextLess(b.id, c.id) { TextLessTransitive(a.id, b.id, c.id); }
  }

  lemma KeyLessTotal(a: Ranked, b: Ranked, families: set<string>, bonus: real)
    requires a.id != b.id
    ensures KeyLess(a, b, families, bonus) != KeyLess(b, a, families, bonus)
  {
    TextLessTotal(a.id, b.id);
    if TextLess(a.id, b.id) { TextLessAsymmetric(a.id, b.id); }
    if TextLess(b.id, a.id) { TextLessAsymmetric(b.id, a.id); }
  }

  ghost predicate DistinctIds(r: set<Ranked>) {
    forall a, b :: a in r && b in r && a.id == b.id ==> a == b
  }

  ghost predicate DistinctList(s: seq<Ranked>) {
    forall i, j :: 0 <= i < j < |s| ==> s[i].id != s[j].id
  }

  ghost predicate Greatest(b: Ranked, r: set<Ranked>, families: set<string>, bonus: real) {
    b in r && forall c :: c in r && c != b ==> KeyLess(c, b, families, bonus)
  }

  lemma GreatestIsUnique(a: Ranked, b: Ranked, r: set<Ranked>, families: set<string>, bonus: real)
    requires DistinctIds(r) && Greatest(a, r, families, bonus) && Greatest(b, r, families, bonus)
    ensures a == b
  {
    if a != b { KeyLessTotal(a, b, families, bonus); }
  }

  /** g takes the greatest remaining candidate again and again, until `limit` or none is left. */
  ghost predicate IsGreedy(g: seq<Ranked>, r: set<Ranked>, families: set<string>, limit: nat, bonus: real)
    decreases |g|
  {
    if limit == 0 || r == {} then g == []
    else
      && g != []
      && Greatest(g[0], r, families, bonus)
      && IsGreedy(g[1..], r - {g[0]}, families + {g[0].family}, limit - 1, bonus)
  }

  /** The selection is a function of the candidate set: the order in which candidates are listed,
      and so the sort before the selection, plays no part. */
  lemma {:induction false} SelectionIgnoresOrder(g: seq<Ranked>, h: seq<Ranked>, r: set<Ranked>,
                                                 families: set<string>, limit: nat, bonus: real)
    requires DistinctIds(r)
    requires IsGreedy(g, r, families, limit, bonus) && IsGreedy(h, r, families, limit, bonus)
    ensures g == h
    decreases limit
  {
    if limit > 0 && r != {} {
      GreatestIsUnique(g[0], h[0], r, families, bonus);
      SelectionIgnoresOrder(g[1..], h[1..], r - {g[0]}, families + {g[0].family}, limit - 1, bonus);
      assert g == [g[0]] + g[1..] && h == [h[0]] + h[1..];
    }
  }

  /** `b` goes before `c`: its score with the bonus is higher; or as high, on fewer reasons; or on as many, and its id
      comes later. */
  predicate Beats(b: Ranked, c: Ranked, families: set<string>, bonus: real) {
    var x := b.score + (if b.family in families then 0.0 else bonus);
    var y := c.score + (if c.family in families then 0.0 else bonus);
    x > y || (x == y && (b.reasons < c.reasons || (b.reasons == c.reasons && TextLess(c.id, b.id))))
  }

  function FamiliesIn(g: seq<Ranked>): set<string> {
    set c | c in g :: c.family
  }

  /** Every choice beats whatever is left, given the families chosen before it. */
  lemma {:induction false} EveryChoiceIsBest(
    g: seq<Ranked>, r: set<Ranked>, families: set<string>, limit: nat, bonus: real, k: nat, c: Ranked)
    requires IsGreedy(g, r, families, limit, bonus) && k < |g|
    requires c in r && c !in g[..k] && c != g[k]
    ensures Beats(g[k], c, families + FamiliesIn(g[..k]), bonus)
    decreases k
  {
    if k == 0 {
      assert families + FamiliesIn(g[..0]) == families;
    } else {
      assert g[..k] == [g[0]] + g[1..][..k - 1];
      EveryChoiceIsBest(g[1..], r - {g[0]}, families + {g[0].family}, limit - 1, bonus, k - 1, c);
      assert families + {g[0].family} + FamiliesIn(g[1..][..k - 1]) == families + FamiliesIn(g[..k]);
    }
  }

  method MaxByKey(remaining: seq<Ranked>, families: set<string>, bonus: real) returns (at: nat)
    requires remaining != []
    requires DistinctList(remaining)
    ensures at < |remaining| && Greatest(remaining[at], Elements(remaining), families, bonus)
  {
    at := 0;
    for i := 1 to |remaining|
      invariant at < i
      invariant forall j :: 0 <= j < i && j != at ==> KeyLess(remaining[j], remaining[at], families, bonus)
    {
      KeyLessTotal(remaining[at], remaining[i], families, bonus);
      if KeyLess(remaining[at], remaining[i], families, bonus) {
        forall j | 0 <= j < i && j != at ensures KeyLess(remaining[j], remaining[i], families, bonus) {
          KeyLessTransitive(remaining[j], remaining[at], remaining[i], families, bonus);
        }
        at := i;
      }
    }
  }

  method RemoveAt(s: seq<Ranked>, at: nat) returns (t: seq<Ranked>)
    requires at < |s| && DistinctList(s)
    ensures DistinctList(t) && |t| == |s| - 1
    ensures Elements(t) == Elements(s) - {s[at]}
  {
    t := s[..at] + s[at + 1..];
    assert forall i :: 0 <= i < |t| ==> t[i] == s[if i < at then i else i + 1];
    forall x | x in Elements(s) - {s[at]} ensures x in Elements(t) {
      var i :| 0 <= i < |s| && s[i] == x;
      assert x == if i < at then t[i] else t[i - 1];
    }
  }

  method SelectDiverse(candidates: seq<Ranked>, limit: nat, bonus: real) returns (selected: seq<Ranked>)
    requires DistinctList(candidates)
    ensures DistinctIds(Elements(candidates))
    ensures IsGreedy(selected, Elements(candidates), {}, limit, bonus)
  {
    var remaining := candidates;
    var families: set<string> := {};
    selected := [];
    assert forall tail: seq<Ranked> :: [] + tail == tail;
    while remaining != [] && |selected| < limit
      invariant |selected| <= limit && DistinctList(remaining)
      invariant forall tail :: IsGreedy(tail, Elements(remaining), families, limit - |selected|, bonus) ==>
                                 IsGreedy(selected + tail, Elements(candidates), {}, limit, bonus)
      decreases |remaining|
    {
      var at := MaxByKey(remaining, families, bonus);
      var best := remaining[at];
      ghost var before, pool, seen := selected, Elements(remaining), families;
      remaining := RemoveAt(remaining, at);
      selected := selected + [best];
      families := families + {best.family};
      forall tail | IsGreedy(tail, Elements(remaining), families, limit - |selected|, bonus)
        ensures IsGreedy(selected + tail, Elements(candidates), {}, limit, bonus)
      {
        assert ([best] + tail)[1..] == tail;
        assert IsGreedy([best] + tail, pool, seen, limit - |before|, bonus);
        assert before + ([best] + tail) == selected + tail;
      }
    }
    ElementsEmpty(remaining);
    assert IsGreedy([], Elements(remaining), families, limit - |selected|, bonus);
    assert selected + [] == selected;
  }

  // ---- the value of a selection ------------------------------------------------------------

  ghost function ScoreSum(t: set<Ranked>): real {
    if t == {} then 0.0
    else var x :| x in t; x.score + ScoreSum(t - {x})
  }

  ghost function Families(t: set<Ranked>): set<string> {
    set x | x in t :: x.family
  }

  ghost function Bonuses(n: nat, bonus: real): real {
    if n == 0 then 0.0 else bonus + Bonuses(n - 1, bonus)
  }

  /** Score sum plus the bonus for every family outside `seen`. */
  ghost function Value(t: set<Ranked>, seen: set<string>, bonus: real): real {
    ScoreSum(t) + Bonuses(|Families(t) - seen|, bonus)
  }

  lemma {:induction false} ScoreSumSplit(t: set<Ranked>, x: Ranked)
    requires x in t
    ensures ScoreSum(t) == x.score + ScoreSum(t - {x})
  {
    var y :| y in t && ScoreSum(t) == y.score + ScoreSum(t - {y});
    if y != x {
      ScoreSumSplit(t - {y}, x);
      ScoreSumSplit(t - {x}, y);
      assert t - {y} - {x} == t - {x} - {y};
    }
  }

  /** Taking b first is worth its gain, and then the rest with b's family already seen. */
  lemma ValueSplit(t: set<Ranked>, b: Ranked, seen: set<string>, bonus: real)
    requires b !in t
    ensures Value(t + {b}, seen, bonus) == Gain(b, seen, bonus) + Value(t, seen + {b.family}, bonus)
  {
    ScoreSumSplit(t + {b}, b);
    assert t + {b} - {b} == t;
    FamiliesSplit(t, b, seen);
  }

  lemma FamiliesSplit(t: set<Ranked>, b: Ranked, seen: set<string>)
    ensures |Families(t + {b}) - seen|
         == |Families(t) - (seen + {b.family})| + (if b.family in seen then 0 else 1)
  {
    var rest := Families(t) - (seen + {b.family});
    if b.family in seen {
      assert Families(t + {b}) - seen == rest;
    } else {
      assert Families(t + {b}) - seen == rest + {b.family};
      assert |rest + {b.family}| == |rest| + 1;
    }
  }

  lemma SeenFamilyLowersValue(t: set<Ranked>, seen: set<string>, f: string, bonus: real)
    requires bonus >= 0.0
    ensures Value(t, seen + {f}, bonus) <= Value(t, seen, bonus)
    ensures f !in Families(t) ==> Value(t, seen + {f}, bonus) == Value(t, seen, bonus)
  {
    var a, b := Families(t) - (seen + {f}), Families(t) - seen;
    assert b == if f in b then a + {f} else a;
  }

  /** Exchange: any non-empty choice can be changed to contain the greedy pick without losing value. */
  lemma Exchange(t: set<Ranked>, b: Ranked, seen: set<string>, bonus: real) returns (u: set<Ranked>)
    requires bonus >= 0.0 && t != {}
    requires forall c :: c in t ==> Gain(c, seen, bonus) <= Gain(b, seen, bonus)
    ensures b !in u && u <= t && |u| == |t| - 1
    ensures Value(t, seen, bonus) <= Value(u + {b}, seen, bonus)
  {
    if b in t {
      u := t - {b};
      assert u + {b} == t;
    } else {
      var x :| x in t && (b.family in Families(t) ==> x.family == b.family);
      u := t - {x};
      assert u + {x} == t;
      ValueSplit(u, x, seen, bonus);
      ValueSplit(u, b, seen, bonus);
      if x.family != b.family {
        SeenFamilyLowersValue(u, seen, x.family, bonus);
        SeenFamilyLowersValue(u, seen, b.family, bonus);
      }
    }
  }

  /** The selection has min(limit, n) members, all different candidates. */
  lemma {:induction false} GreedyChooses(g: seq<Ranked>, r: set<Ranked>, families: set<string>, limit: nat, bonus: real)
    requires IsGreedy(g, r, families, limit, bonus)
    ensures |g| == (if limit <= |r| then limit else |r|)
    ensures Elements(g) <= r && |Elements(g)| == |g|
    decreases limit
  {
    if limit > 0 && r != {} {
      GreedyChooses(g[1..], r - {g[0]}, families + {g[0].family}, limit - 1, bonus);
      HeadAndTail(g);
    }
  }

  lemma HeadAndTail(g: seq<Ranked>)
    requires g != []
    ensures Elements(g) == Elements(g[1..]) + {g[0]}
  {
    assert g == [g[0]] + g[1..];
  }

  /** No n members of r are together worth more than `chosen`. */
  ghost predicate MostValuable(chosen: set<Ranked>, r: set<Ranked>, n: nat, seen: set<string>, bonus: real) {
    forall t {:trigger Value(t, seen, bonus)} :: t <= r && |t| == n ==>
        Value(t, seen, bonus) <= Value(chosen, seen, bonus)
  }

  /** One step of the argument: if `rest` is best after b, then b with `rest` is best. */
  lemma BestFirst(r: set<Ranked>, b: Ranked, rest: set<Ranked>, n: nat, seen: set<string>, bonus: real)
    requires bonus >= 0.0 && n > 0 && b !in rest
    requires Greatest(b, r, seen, bonus)
    requires MostValuable(rest, r - {b}, n - 1, seen + {b.family}, bonus)
    ensures MostValuable(rest + {b}, r, n, seen, bonus)
  {
    forall t | t <= r && |t| == n ensures Value(t, seen, bonus) <= Value(rest + {b}, seen, bonus) {
      var u := Exchange(t, b, seen, bonus);
      assert u <= r - {b};
      ValueSplit(u, b, seen, bonus);
      ValueSplit(rest, b, seen, bonus);
    }
  }

  /** Greedy is globally optimal: no choice of min(limit, n) candidates is worth more. */
  lemma {:induction false} GreedyIsOptimal(g: seq<Ranked>, r: set<Ranked>, families: set<string>, limit: nat,
                                           bonus: real)
    requires bonus >= 0.0
    requires IsGreedy(g, r, families, limit, bonus)
    ensures MostValuable(Elements(g), r, if limit <= |r| then limit else |r|, families, bonus)
    decreases limit
  {
    if limit > 0 && r != {} {
      var b, rest := g[0], g[1..];
      assert |r - {b}| == |r| - 1;
      GreedyIsOptimal(rest, r - {b}, families + {b.family}, limit - 1, bonus);
      GreedyChooses(rest, r - {b}, families + {b.family}, limit - 1, bonus);
      BestFirst(r, b, Elements(rest), if limit <= |r| then limit else |r|, families, bonus);
      HeadAndTail(g);
    } else {
      ElementsEmpty(g);
      assert forall t: set<Ranked> :: |t| == 0 ==> t == {};
    }
  }
}
