/** The card dictionary of a game section: which names a run of turns resolves,
    and the per-phase dictionaries put together from per-turn ones. */
module CardLookups {
  import opened Common

  datatype Card = Card(id: int, name: string)

  /** An action's pointers; the first one set decides what it mentions. */
  datatype Action = Action(cast: Option<Card>, resolve: Option<Card>, move: Option<Card>, tap: Option<Card>,
                           ability: Option<Card>, target: Option<Card>, statMod: Option<Card>, damage: Option<Card>)

  datatype Turn = Turn(actions: seq<Action>, battlefields: seq<seq<Card>>)

  type Lookup = map<int, string>

  function Mentioned(a: Action): seq<Card> {
    if a.cast.Some? then [a.cast.value]
    else if a.resolve.Some? then [a.resolve.value]
    else if a.move.Some? then [a.move.value]
    else if a.tap.Some? then [a.tap.value]
    else if a.ability.Some? then [a.ability.value]
    else if a.target.Some? then [a.target.value]
    else if a.statMod.Some? then [a.statMod.value]
    else if a.damage.Some? then [a.damage.value]
    else []
  }

  /** The first card there is. */
  function FirstOf(cards: seq<Option<Card>>): seq<Card> {
    if cards == [] then [] else if cards[0].Some? then [cards[0].value] else FirstOf(cards[1..])
  }

  lemma FirstCons(cards: seq<Option<Card>>, more: seq<Option<Card>>)
    requires cards != [] && cards[1..] == more
    ensures FirstOf(cards) == if cards[0].Some? then [cards[0].value] else FirstOf(more)
  {
  }

  /** An action mentions one card at most: of what it casts, resolves, moves, taps, the
      ability, the target, the changed statistics and the damage, the first that is set. */
  lemma MentionsFirst(a: Action)
    ensures Mentioned(a) == FirstOf([a.cast, a.resolve, a.move, a.tap, a.ability, a.target, a.statMod, a.damage])
  {
    assert FirstOf([]) == [];
    hide FirstOf;
    FirstCons([a.damage], []);
    FirstCons([a.statMod, a.damage], [a.damage]);
    FirstCons([a.target, a.statMod, a.damage], [a.statMod, a.damage]);
    FirstCons([a.ability, a.target, a.statMod, a.damage], [a.target, a.statMod, a.damage]);
    FirstCons([a.tap, a.ability, a.target, a.statMod, a.damage], [a.ability, a.target, a.statMod, a.damage]);
    FirstCons([a.move, a.tap, a.ability, a.target, a.statMod, a.damage], [a.tap, a.ability, a.target, a.statMod, a.damage]);
    FirstCons([a.resolve, a.move, a.tap, a.ability, a.target, a.statMod, a.damage],
              [a.move, a.tap, a.ability, a.target, a.statMod, a.damage]);
    FirstCons([a.cast, a.resolve, a.move, a.tap, a.ability, a.target, a.statMod, a.damage],
              [a.resolve, a.move, a.tap, a.ability, a.target, a.statMod, a.damage]);
  }

  function ActionMentions(actions: seq<Action>): seq<Card> {
    if actions == [] then [] else ActionMentions(actions[..|actions| - 1]) + Mentioned(actions[|actions| - 1])
  }

  function FieldMentions(fields: seq<seq<Card>>): seq<Card> {
    if fields == [] then [] else FieldMentions(fields[..|fields| - 1]) + fields[|fields| - 1]
  }

  function TurnMentions(t: Turn): seq<Card> {
    ActionMentions(t.actions) + FieldMentions(t.battlefields)
  }

  /** Every card the turns mention, in the order they are walked. */
  function Mentions(turns: seq<Turn>): seq<Card> {
    if turns == [] then [] else Mentions(turns[..|turns| - 1]) + TurnMentions(turns[|turns| - 1])
  }

  /** The first name the mentions give a card; never an empty one. */
  function FirstNamed(cards: seq<Card>, id: int): Option<string> {
    if cards == [] then None
    else if FirstNamed(cards[..|cards| - 1], id).Some? then FirstNamed(cards[..|cards| - 1], id)
    else
      var c := cards[|cards| - 1];
      if c.id == id && id != 0 && c.name != "" then Some(c.name) else None
  }

  /** A dictionary holds exactly the cards that were ever named, each under its
      first name. */
  ghost predicate Resolves(lookup: Lookup, cards: seq<Card>) {
    forall id :: Entry(lookup, id) == FirstNamed(cards, id)
  }

  function Entry(lookup: Lookup, id: int): Option<string> {
    if id in lookup then Some(lookup[id]) else None
  }

  lemma {:induction false} FirstNamedConcat(a: seq<Card>, b: seq<Card>, id: int)
    ensures FirstNamed(a + b, id) == if FirstNamed(a, id).Some? then FirstNamed(a, id) else FirstNamed(b, id)
    decreases |b|
  {
    if b == [] {
      assert a + b == a;
    } else {
      assert (a + b)[..|a + b| - 1] == a + b[..|b| - 1];
      FirstNamedConcat(a, b[..|b| - 1], id);
    }
  }

  lemma {:induction false} FirstNamedIsNamed(cards: seq<Card>, id: int)
    ensures FirstNamed(cards, id) != Some("") && FirstNamed(cards, 0) == None
  {
    if cards != [] { FirstNamedIsNamed(cards[..|cards| - 1], id); }
  }

  // ---- Walking the turns ----

  /** While walking, names may still be empty; a named card keeps its first name. */
  ghost predicate Considered(lookup: Lookup, cards: seq<Card>) {
    forall id :: ConsideredAt(lookup, cards, id)
  }

  ghost predicate ConsideredAt(lookup: Lookup, cards: seq<Card>, id: int) {
    && (FirstNamed(cards, id).Some? ==> id in lookup && lookup[id] == FirstNamed(cards, id).value)
    && (FirstNamed(cards, id).None? ==> id !in lookup || lookup[id] == "")
  }

  function Consider(lookup: Lookup, c: Card): Lookup {
    if c.id == 0 then lookup
    else if c.id !in lookup || (lookup[c.id] == "" && c.name != "") then lookup[c.id := c.name]
    else lookup
  }

  lemma ConsiderOne(lookup: Lookup, cards: seq<Card>, c: Card)
    requires Considered(lookup, cards)
    ensures Considered(Consider(lookup, c), cards + [c])
  {
    assert (cards + [c])[..|cards|] == cards;
    forall id
      ensures ConsideredAt(Consider(lookup, c), cards + [c], id)
    {
      assert ConsideredAt(lookup, cards, id);
      FirstNamedIsNamed(cards, id);
    }
  }

  method ConsiderAll(lookup: Lookup, cards: seq<Card>, ghost before: seq<Card>) returns (out: Lookup)
    requires Considered(lookup, before)
    ensures Considered(out, before + cards)
  {
    hide Considered, Consider;
    out := lookup;
    assert before + cards[..0] == before;
    for i := 0 to |cards|
      invariant Considered(out, before + cards[..i])
    {
      ConsiderOne(out, before + cards[..i], cards[i]);
      assert (before + cards[..i]) + [cards[i]] == before + cards[..i + 1];
      out := Consider(out, cards[i]);
    }
    assert cards[..|cards|] == cards;
  }

  method ConsiderTurn(lookup: Lookup, turn: Turn, ghost before: seq<Card>) returns (out: Lookup)
    requires Considered(lookup, before)
    ensures Considered(out, before + TurnMentions(turn))
  {
    hide Considered, Mentioned;
    out := lookup;
    assert before + ActionMentions(turn.actions[..0]) == before;
    for i := 0 to |turn.actions|
      invariant Considered(out, before + ActionMentions(turn.actions[..i]))
    {
      out := ConsiderAll(out, Mentioned(turn.actions[i]), before + ActionMentions(turn.actions[..i]));
      assert turn.actions[..i + 1][..i] == turn.actions[..i];
      assert (before + ActionMentions(turn.actions[..i])) + Mentioned(turn.actions[i])
          == before + ActionMentions(turn.actions[..i + 1]);
    }
    assert turn.actions[..|turn.actions|] == turn.actions;
    ghost var mid := before + ActionMentions(turn.actions);
    assert mid + FieldMentions(turn.battlefields[..0]) == mid;
    for i := 0 to |turn.battlefields|
      invariant Considered(out, mid + FieldMentions(turn.battlefields[..i]))
    {
      out := ConsiderAll(out, turn.battlefields[i], mid + FieldMentions(turn.battlefields[..i]));
      assert turn.battlefields[..i + 1][..i] == turn.battlefields[..i];
      assert (mid + FieldMentions(turn.battlefields[..i])) + turn.battlefields[i]
          == mid + FieldMentions(turn.battlefields[..i + 1]);
    }
    assert turn.battlefields[..|turn.battlefields|] == turn.battlefields;
    assert mid + FieldMentions(turn.battlefields) == before + TurnMentions(turn);
  }

  /** Removes the cards that were never named. */
  method DropUnresolvedNames(lookup: Lookup) returns (out: Lookup)
    ensures out == map id | id in lookup && lookup[id] != "" :: lookup[id]
  {
    out := lookup;
    var todo := lookup.Keys;
    while todo != {}
      invariant todo <= out.Keys
      invariant out == map id | id in lookup && (id in todo || lookup[id] != "") :: lookup[id]
      decreases todo
    {
      Inhabited(todo);
      var id :| id in todo;
      todo := todo - {id};
      if out[id] == "" {
        out := out - {id};
      }
    }
  }

  method CollectCardLookup(turns: seq<Turn>) returns (lookup: Lookup)
    ensures Resolves(lookup, Mentions(turns))
  {
    hide Considered;
    lookup := map[];
    NothingConsidered();
    for i := 0 to |turns|
      invariant Considered(lookup, Mentions(turns[..i]))
    {
      assert turns[..i + 1][..i] == turns[..i];
      lookup := ConsiderTurn(lookup, turns[i], Mentions(turns[..i]));
    }
    assert turns[..|turns|] == turns;
    ghost var walked := lookup;
    lookup := DropUnresolvedNames(lookup);
    DroppedResolves(walked, lookup, Mentions(turns));
  }

  lemma NothingConsidered()
    ensures Considered(map[], [])
  {
  }

  lemma DroppedResolves(walked: Lookup, lookup: Lookup, cards: seq<Card>)
    requires Considered(walked, cards)
    requires lookup == map id | id in walked && walked[id] != "" :: walked[id]
    ensures Resolves(lookup, cards)
  {
    forall id
      ensures Entry(lookup, id) == FirstNamed(cards, id)
    {
      assert ConsideredAt(walked, cards, id);
      FirstNamedIsNamed(cards, id);
    }
  }

  lemma Inhabited(s: set<int>)
    ensures s == {} || exists x :: x in s
  {
    if forall x :: x !in s {
      assert s == {};
    }
  }

  // ---- Per-phase dictionaries ----

  /** Adds a turn's dictionary to those of the turns before it. */
  method MergeContribution(lookup: Lookup, contribution: Lookup, ghost before: seq<Card>, ghost cards: seq<Card>)
    returns (out: Lookup)
    requires Resolves(lookup, before) && Resolves(contribution, cards)
    ensures Resolves(out, before + cards)
  {
    out := lookup;
    var todo := contribution.Keys;
    while todo != {}
      invariant todo <= contribution.Keys
      invariant forall id :: Entry(out, id)
                  == if id in lookup then Some(lookup[id])
                     else if id in contribution && id !in todo then Some(contribution[id]) else None
      decreases todo
    {
      Inhabited(todo);
      var id :| id in todo;
      todo := todo - {id};
      var name := contribution[id];
      NamesAreNotEmpty(lookup, before, id);
      assert Entry(out, id) == if id in lookup then Some(lookup[id]) else None;
      if id !in out || (out[id] == "" && name != "") {
        out := out[id := name];
      }
    }
    forall id
      ensures Entry(out, id) == FirstNamed(before + cards, id)
    {
      FirstNamedConcat(before, cards, id);
      assert Entry(lookup, id) == FirstNamed(before, id);
      assert Entry(contribution, id) == FirstNamed(cards, id);
    }
  }

  lemma NamesAreNotEmpty(lookup: Lookup, cards: seq<Card>, id: int)
    requires Resolves(lookup, cards)
    ensures id in lookup ==> lookup[id] != ""
  {
    assert Entry(lookup, id) == FirstNamed(cards, id);
    FirstNamedIsNamed(cards, id);
  }

  /** Each turn's dictionary, collected once. */
  ghost predicate PerTurn(contributions: seq<Lookup>, turns: seq<Turn>) {
    |contributions| == |turns| && forall i :: 0 <= i < |turns| ==> Resolves(contributions[i], TurnMentions(turns[i]))
  }

  method CollectPerTurn(turns: seq<Turn>) returns (contributions: seq<Lookup>)
    ensures PerTurn(contributions, turns)
  {
    contributions := [];
    for i := 0 to |turns|
      invariant PerTurn(contributions, turns[..i])
    {
      var lookup := CollectCardLookup([turns[i]]);
      OneTurn(turns[i]);
      contributions := contributions + [lookup];
    }
    assert turns[..|turns|] == turns;
  }

  lemma OneTurn(t: Turn)
    ensures Mentions([t]) == TurnMentions(t)
  {
    assert [t][..0] == [];
    assert [] + TurnMentions(t) == TurnMentions(t);
  }

  /** A phase's dictionary, put together from those of its turns, is the one its own
      turns resolve to. */
  method PhaseLookup(contributions: seq<Lookup>, turns: seq<Turn>, start: nat, end: nat) returns (lookup: Lookup)
    requires PerTurn(contributions, turns) && start <= end <= |turns|
    ensures Resolves(lookup, Mentions(turns[start..end]))
  {
    hide Resolves, Mentions, TurnMentions, PerTurn;
    lookup := map[];
    NothingResolved(turns, start);
    for i := start to end
      invariant Resolves(lookup, Mentions(turns[start..i]))
    {
      OneMoreTurn(turns, start, i);
      OneContribution(contributions, turns, i);
      lookup := MergeContribution(lookup, contributions[i], Mentions(turns[start..i]), TurnMentions(turns[i]));
    }
  }

  lemma NothingResolved(turns: seq<Turn>, start: nat)
    requires start <= |turns|
    ensures Resolves(map[], Mentions(turns[start..start]))
  {
    assert turns[start..start] == [];
  }

  lemma OneMoreTurn(turns: seq<Turn>, start: nat, i: nat)
    requires start <= i < |turns|
    ensures Mentions(turns[start..i + 1]) == Mentions(turns[start..i]) + TurnMentions(turns[i])
  {
    hide TurnMentions;
    var longer := turns[start..i + 1];
    assert longer[..|longer| - 1] == turns[start..i];
    assert longer[|longer| - 1] == turns[i];
  }

  lemma OneContribution(contributions: seq<Lookup>, turns: seq<Turn>, i: nat)
    requires PerTurn(contributions, turns) && i < |turns|
    ensures |contributions| == |turns| && Resolves(contributions[i], TurnMentions(turns[i]))
  {
  }

  /** There is only one such dictionary, so a phase's equals the one collected from
      its turns directly. */
  lemma ResolvesUnique(a: Lookup, b: Lookup, cards: seq<Card>)
    requires Resolves(a, cards) && Resolves(b, cards)
    ensures a == b
  {
    forall id
      ensures id in a <==> id in b
      ensures id in a ==> a[id] == b[id]
    {
      assert Entry(a, id) == FirstNamed(cards, id) == Entry(b, id);
    }
  }
}
