/**
 * What `Automata::accepts` computes, stated over plain values.
 *
 * `get_transition` returns the destination of the first matching triple in
 * the iteration order of a hash set, which the program does not fix. So one
 * letter of `accepts` does not determine a single new live set: every live
 * state contributes SOME destination of a triple leaving it on that letter.
 * `IsStep` is that relation and `MayYield` the set of outcomes `accepts` can
 * return. `Run` is the outcome when at most one triple matches each
 * (source, letter) pair, and `PostWord` the textbook subset simulation that
 * follows every triple.
 */
module Semantics {
  import opened Wrappers

  /** A state label. */
  type State = string

  /** A transition label; `accepts` compares it with a one-character string. */
  type Letter = string

  /** A transition triple `(source, letter, dest)`. */
  datatype Transition = Transition(source: State, letter: Letter, dest: State)

  /** What `accepts` returns. */
  type Outcome = Result<bool, bool>

  /** Some triple leaves `s` on `l`: exactly when `get_transition(s, l)` is `Some`. */
  predicate Enabled(T: set<Transition>, s: State, l: Letter) {
    exists t :: t in T && t.source == s && t.letter == l
  }

  /** Some live state of `S` has no triple on `c`: the `?` of `accepts` aborts. */
  predicate Stuck(T: set<Transition>, S: set<State>, c: char) {
    exists s :: s in S && !Enabled(T, s, [c])
  }

  /** Every destination of a triple on `c` leaving a state of `S`. */
  function Post(T: set<Transition>, S: set<State>, c: char): set<State> {
    set t | t in T && t.source in S && t.letter == [c] :: t.dest
  }

  /** The subset simulation: the states reachable from `S` along `w` by any triples. */
  function PostWord(T: set<Transition>, S: set<State>, w: seq<char>): set<State>
    decreases |w|
  {
    if |w| == 0 then S else PostWord(T, Post(T, S, w[0]), w[1..])
  }

  /** No (source, letter) pair has two triples with different destinations. */
  predicate Functional(T: set<Transition>) {
    forall t, u :: t in T && u in T && t.source == u.source && t.letter == u.letter ==> t.dest == u.dest
  }

  /** `f` picks, for each state of `S`, the destination of one triple leaving it on `c`. */
  ghost predicate ChoiceOf(T: set<Transition>, S: set<State>, c: char, f: map<State, State>) {
    f.Keys == S && forall s :: s in f ==> Transition(s, [c], f[s]) in T
  }

  /** `S'` is a live set that one letter `c` of `accepts` can produce from `S`. */
  ghost predicate IsStep(T: set<Transition>, S: set<State>, c: char, S': set<State>) {
    exists f :: ChoiceOf(T, S, c, f) && S' == f.Values
  }

  /** The final scan of `accepts` over the live set. */
  function Final(S: set<State>, terminal: set<State>): Outcome {
    if S * terminal != {} then Ok(true) else Err(false)
  }

  /** `accepts` on `w`, started from the live set `S`, may return `r`. */
  ghost predicate MayYield(T: set<Transition>, terminal: set<State>, S: set<State>, w: seq<char>, r: Outcome)
    decreases |w|
  {
    if |w| == 0 then r == Final(S, terminal)
    else if Stuck(T, S, w[0]) then r == Err(false)
    else exists S' :: IsStep(T, S, w[0], S') && MayYield(T, terminal, S', w[1..], r)
  }

  /** The single outcome of `accepts` when the transitions are functional. */
  function Run(T: set<Transition>, terminal: set<State>, S: set<State>, w: seq<char>): (r: Outcome)
    ensures r == Ok(true) || r == Err(false)
    decreases |w|
  {
    if |w| == 0 then Final(S, terminal)
    else if Stuck(T, S, w[0]) then Err(false)
    else Run(T, terminal, Post(T, S, w[0]), w[1..])
  }

  /** No live set met along `w` by the subset simulation from `S` gets stuck. */
  predicate NeverStuck(T: set<Transition>, S: set<State>, w: seq<char>)
    decreases |w|
  {
    |w| == 0 || (!Stuck(T, S, w[0]) && NeverStuck(T, Post(T, S, w[0]), w[1..]))
  }

  /** One destination of a triple leaving `s` on `l`. */
  ghost function Pick(T: set<Transition>, s: State, l: Letter): (d: State)
    requires Enabled(T, s, l)
    ensures Transition(s, l, d) in T
  {
    var t :| t in T && t.source == s && t.letter == l;
    t.dest
  }

  /** A choice of destinations for a live set that is not stuck. */
  ghost function Choose(T: set<Transition>, S: set<State>, c: char): (f: map<State, State>)
    requires !Stuck(T, S, c)
    ensures ChoiceOf(T, S, c, f)
  {
    map s | s in S :: Pick(T, s, [c])
  }

  /** A map has no more distinct values than keys. */
  lemma {:induction false} ValuesNoMoreThanKeys(f: map<State, State>)
    ensures |f.Values| <= |f.Keys|
  {
    if f != map[] {
      var k :| k in f;
      var g := f - {k};
      ValuesNoMoreThanKeys(g);
      assert f.Keys == g.Keys + {k};
      assert f.Values <= g.Values + {f[k]};
      SubsetNoLarger(f.Values, g.Values + {f[k]});
    }
  }

  /** Adding a fresh key adds its value to the values. */
  lemma ValuesOfUpdate(f: map<State, State>, k: State, v: State)
    requires k !in f
    ensures f[k := v].Values == f.Values + {v}
  {
    var g := f[k := v];
    forall d | d in f.Values ensures d in g.Values {
      var j :| j in f && f[j] == d;
      assert g[j] == d;
    }
    assert g[k] == v;
  }

  lemma SubsetNoLarger(A: set<State>, B: set<State>)
    requires A <= B
    ensures |A| <= |B|
  {
    assert B == A + (B - A);
  }

  /**
   * One letter keeps only successors of live states, never grows the live
   * set, and empties it exactly when it was already empty.
   */
  lemma StepShrinks(T: set<Transition>, S: set<State>, c: char, S': set<State>)
    requires IsStep(T, S, c, S')
    ensures S' <= Post(T, S, c)
    ensures |S'| <= |S|
    ensures S' == {} <==> S == {}
  {
    var f :| ChoiceOf(T, S, c, f) && S' == f.Values;
    forall d | d in S' ensures d in Post(T, S, c) {
      var s :| s in f && f[s] == d;
      assert Transition(s, [c], d) in T;
    }
    ValuesNoMoreThanKeys(f);
    if S != {} {
      var s :| s in S;
      assert f[s] in S';
    }
  }

  /** Whatever the choices, `accepts` returns only `Ok(true)` or `Err(false)`. */
  lemma {:induction false} OutcomeIsOkTrueOrErrFalse(T: set<Transition>, terminal: set<State>, S: set<State>, w: seq<char>, r: Outcome)
    requires MayYield(T, terminal, S, w, r)
    ensures r == Ok(true) || r == Err(false)
    decreases |w|
  {
    if |w| > 0 && !Stuck(T, S, w[0]) {
      var S' :| IsStep(T, S, w[0], S') && MayYield(T, terminal, S', w[1..], r);
      OutcomeIsOkTrueOrErrFalse(T, terminal, S', w[1..], r);
    }
  }

  /** Once the live set is empty, the word is rejected. */
  lemma {:induction false} EmptyLiveRejects(T: set<Transition>, terminal: set<State>, w: seq<char>, r: Outcome)
    requires MayYield(T, terminal, {}, w, r)
    ensures r == Err(false)
    decreases |w|
  {
    if |w| > 0 {
      var S' :| IsStep(T, {}, w[0], S') && MayYield(T, terminal, S', w[1..], r);
      StepShrinks(T, {}, w[0], S');
      EmptyLiveRejects(T, terminal, w[1..], r);
    }
  }

  /** A larger start set reaches a larger set along any word. */
  lemma {:induction false} PostWordMonotone(T: set<Transition>, A: set<State>, B: set<State>, w: seq<char>)
    requires A <= B
    ensures PostWord(T, A, w) <= PostWord(T, B, w)
    decreases |w|
  {
    if |w| > 0 {
      PostWordMonotone(T, Post(T, A, w[0]), Post(T, B, w[0]), w[1..]);
    }
  }

  /**
   * `accepts` is sound for the automaton's language: when it returns
   * `Ok(true)`, some run along `w` ends in a terminal state.
   */
  lemma {:induction false} AcceptanceIsSound(T: set<Transition>, terminal: set<State>, S: set<State>, w: seq<char>)
    requires MayYield(T, terminal, S, w, Ok(true))
    ensures PostWord(T, S, w) * terminal != {}
    decreases |w|
  {
    if |w| > 0 {
      var S' :| IsStep(T, S, w[0], S') && MayYield(T, terminal, S', w[1..], Ok(true));
      AcceptanceIsSound(T, terminal, S', w[1..]);
      StepShrinks(T, S, w[0], S');
      PostWordMonotone(T, S', Post(T, S, w[0]), w[1..]);
    }
  }

  /** With functional transitions, the only live set one letter can produce is `Post`. */
  lemma FunctionalStep(T: set<Transition>, S: set<State>, c: char, S': set<State>)
    requires Functional(T)
    requires IsStep(T, S, c, S')
    ensures S' == Post(T, S, c)
  {
    var f :| ChoiceOf(T, S, c, f) && S' == f.Values;
    StepShrinks(T, S, c, S');
    PostWithinChoice(T, S, c, f);
  }

  /** With functional transitions, a choice leaves out no destination. */
  lemma PostWithinChoice(T: set<Transition>, S: set<State>, c: char, f: map<State, State>)
    requires Functional(T)
    requires ChoiceOf(T, S, c, f)
    ensures Post(T, S, c) <= f.Values
  {
    forall d | d in Post(T, S, c) ensures d in f.Values {
      var t :| t in T && t.source in S && t.letter == [c] && t.dest == d;
      ChoiceIsOnlyMatch(T, S, c, f, t);
      assert t.source in f.Keys;
    }
  }

  lemma ChoiceIsOnlyMatch(T: set<Transition>, S: set<State>, c: char, f: map<State, State>, t: Transition)
    requires Functional(T)
    requires ChoiceOf(T, S, c, f)
    requires t in T && t.source in S && t.letter == [c]
    ensures f[t.source] == t.dest
  {
    assert Transition(t.source, [c], f[t.source]) in T;
  }

  /** A live set that is not stuck always has a successor live set. */
  lemma StepExists(T: set<Transition>, S: set<State>, c: char)
    requires !Stuck(T, S, c)
    ensures IsStep(T, S, c, Choose(T, S, c).Values)
  {
    var f := Choose(T, S, c);
    assert ChoiceOf(T, S, c, f);
  }

  /**
   * With functional transitions `accepts` has exactly one possible outcome,
   * and that outcome is `Run`.
   */
  lemma {:induction false} DeterministicOutcome(T: set<Transition>, terminal: set<State>, S: set<State>, w: seq<char>, r: Outcome)
    requires Functional(T)
    ensures MayYield(T, terminal, S, w, r) <==> r == Run(T, terminal, S, w)
    decreases |w|
  {
    if |w| > 0 && !Stuck(T, S, w[0]) {
      var P := Post(T, S, w[0]);
      StepExists(T, S, w[0]);
      FunctionalStep(T, S, w[0], Choose(T, S, w[0]).Values);
      DeterministicOutcome(T, terminal, P, w[1..], r);
      if MayYield(T, terminal, S, w, r) {
        var S' :| IsStep(T, S, w[0], S') && MayYield(T, terminal, S', w[1..], r);
        FunctionalStep(T, S, w[0], S');
      }
    }
  }

  /**
   * `Run` is the subset simulation, except that it rejects as soon as a
   * live state has no transition on the next letter.
   */
  lemma {:induction false} RunIsGuardedSubsetSimulation(T: set<Transition>, terminal: set<State>, S: set<State>, w: seq<char>)
    ensures Run(T, terminal, S, w) == Ok(true) <==> NeverStuck(T, S, w) && PostWord(T, S, w) * terminal != {}
    decreases |w|
  {
    if |w| > 0 && !Stuck(T, S, w[0]) {
      RunIsGuardedSubsetSimulation(T, terminal, Post(T, S, w[0]), w[1..]);
    }
  }

  /**
   * A missing transition rejects even when another run accepts: with
   * initial states 0 and 2, terminal state 1 and the single triple
   * (0, a, 1), the word "a" reaches 1, yet state 2 has no triple on `a`.
   */
  lemma MissingTransitionRejects(r: Outcome)
    requires MayYield({Transition("0", "a", "1")}, {"1"}, {"0", "2"}, "a", r)
    ensures r == Err(false)
    ensures PostWord({Transition("0", "a", "1")}, {"0", "2"}, "a") == {"1"}
  {
    var T := {Transition("0", "a", "1")};
    assert !Enabled(T, "2", "a");
    assert Stuck(T, {"0", "2"}, 'a');
    assert "a"[1..] == [];
    assert Transition("0", "a", "1") in T;
    assert "1" in Post(T, {"0", "2"}, 'a');
  }

  /**
   * Whichever destination the lookup picks, some words are still decided:
   * with 0 -a-> B, 0 -a-> C, B -a-> 1 and C -a-> 1 (0 initial, 1 terminal),
   * "aa" is accepted through B and through C alike.
   */
  lemma EitherBranchAccepts(r: Outcome)
    requires MayYield({Transition("0", "a", "B"), Transition("0", "a", "C"),
                       Transition("B", "a", "1"), Transition("C", "a", "1")}, {"1"}, {"0"}, "aa", r)
    ensures r == Ok(true)
  {
    var T := {Transition("0", "a", "B"), Transition("0", "a", "C"),
              Transition("B", "a", "1"), Transition("C", "a", "1")};
    BranchingSteps(T);
    assert "aa" == ['a', 'a'];
    AcceptsThroughEitherBranch(T, {"1"}, "0", "B", "C", "1", 'a', r);
  }

  /**
   * A word of two letters `c` whose first letter forks a single state into
   * `x` and `y`, both of which lead on `c` to the terminal state `d`.
   */
  lemma AcceptsThroughEitherBranch(T: set<Transition>, terminal: set<State>, s: State, x: State, y: State, d: State, c: char, r: Outcome)
    requires !Stuck(T, {s}, c) && Post(T, {s}, c) == {x, y}
    requires !Stuck(T, {x}, c) && Post(T, {x}, c) == {d}
    requires !Stuck(T, {y}, c) && Post(T, {y}, c) == {d}
    requires d in terminal
    requires MayYield(T, terminal, {s}, [c, c], r)
    ensures r == Ok(true)
  {
    assert [c, c] == [c] + [c];
    var S1 := FirstStep(T, terminal, {s}, c, [c], r);
    ForkedThenAccepted(T, terminal, s, x, y, d, c, r, S1);
  }

  /** Whichever of `x` and `y` the first letter kept, the second letter accepts. */
  lemma ForkedThenAccepted(T: set<Transition>, terminal: set<State>, s: State, x: State, y: State, d: State, c: char, r: Outcome, S1: set<State>)
    requires Post(T, {s}, c) == {x, y}
    requires !Stuck(T, {x}, c) && Post(T, {x}, c) == {d}
    requires !Stuck(T, {y}, c) && Post(T, {y}, c) == {d}
    requires d in terminal
    requires IsStep(T, {s}, c, S1) && MayYield(T, terminal, S1, [c], r)
    ensures r == Ok(true)
  {
    var m := OneStateStep(T, s, c, S1);
    if m == x {
      LastLetterAccepts(T, terminal, x, c, d, r);
    } else {
      assert S1 == {y};
      LastLetterAccepts(T, terminal, y, c, d, r);
    }
  }

  /** One letter from a single live state to a single terminal state accepts. */
  lemma LastLetterAccepts(T: set<Transition>, terminal: set<State>, s: State, c: char, d: State, r: Outcome)
    requires !Stuck(T, {s}, c) && Post(T, {s}, c) == {d} && d in terminal
    requires MayYield(T, terminal, {s}, [c], r)
    ensures r == Ok(true)
  {
    assert [c] == [c] + [];
    var S' := FirstStep(T, terminal, {s}, c, [], r);
    var e := OneStateStep(T, s, c, S');
    assert d in S' * terminal;
  }

  /** The live set after the first letter of a run that does not abort there. */
  lemma FirstStep(T: set<Transition>, terminal: set<State>, S: set<State>, c: char, w: seq<char>, r: Outcome)
    returns (S': set<State>)
    requires !Stuck(T, S, c)
    requires MayYield(T, terminal, S, [c] + w, r)
    ensures IsStep(T, S, c, S') && MayYield(T, terminal, S', w, r)
  {
    assert ([c] + w)[0] == c && ([c] + w)[1..] == w;
    S' :| IsStep(T, S, c, S') && MayYield(T, terminal, S', w, r);
  }

  /** The letter steps of the transitions in `EitherBranchAccepts`. */
  lemma BranchingSteps(T: set<Transition>)
    requires T == {Transition("0", "a", "B"), Transition("0", "a", "C"),
                   Transition("B", "a", "1"), Transition("C", "a", "1")}
    ensures !Stuck(T, {"0"}, 'a') && Post(T, {"0"}, 'a') == {"B", "C"}
    ensures !Stuck(T, {"B"}, 'a') && Post(T, {"B"}, 'a') == {"1"}
    ensures !Stuck(T, {"C"}, 'a') && Post(T, {"C"}, 'a') == {"1"}
  {
    assert Transition("0", "a", "B") in T && Transition("0", "a", "C") in T;
    assert Transition("B", "a", "1") in T && Transition("C", "a", "1") in T;
    assert "B" in Post(T, {"0"}, 'a') && "C" in Post(T, {"0"}, 'a');
    assert "1" in Post(T, {"B"}, 'a') && "1" in Post(T, {"C"}, 'a');
  }

  /** From a single live state, one letter leaves a single live state. */
  lemma OneStateStep(T: set<Transition>, s: State, c: char, S': set<State>) returns (d: State)
    requires IsStep(T, {s}, c, S')
    ensures S' == {d} && d in Post(T, {s}, c)
  {
    StepShrinks(T, {s}, c, S');
    d :| d in S';
    SingletonOrEmpty(S', d);
  }

  lemma SingletonOrEmpty(S: set<State>, x: State)
    requires x in S && |S| <= 1
    ensures S == {x}
  {
    if y :| y in S && y != x {
      assert {x, y} <= S;
      SubsetNoLarger({x, y}, S);
    }
  }
}
