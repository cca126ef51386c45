/**
 * The `Automata` store of `src/automata.rs`: four sets of strings that the
 * construction methods only ever grow, a lookup that returns the first
 * matching triple it meets, and `accepts`, which runs a word through the
 * live set one letter at a time.
 */
module Automata {
  import opened Wrappers
  import opened Semantics

  class Automata {
    var states: set<State>
    var transitions: set<Transition>
    var initialStates: set<State>
    var terminalStates: set<State>

    /** Initial and terminal states are registered states. */
    ghost predicate Valid()
      reads this
    {
      initialStates <= states && terminalStates <= states
    }

    /** `Automata::new`: every set empty. */
    constructor ()
      ensures Valid()
      ensures states == {} && transitions == {} && initialStates == {} && terminalStates == {}
    {
      states, transitions := {}, {};
      initialStates, terminalStates := {}, {};
    }

    /**
     * `add_state`: registers `state` and adds it to the initial and terminal
     * sets when asked; flags set earlier are never cleared, and a call that
     * has nothing to add changes nothing.
     */
    method AddState(state: State, isInitial: bool, isTerminal: bool)
      modifies this
      ensures old(Valid()) ==> Valid()
      ensures states == old(states) + {state}
      ensures initialStates == if isInitial then old(initialStates) + {state} else old(initialStates)
      ensures terminalStates == if isTerminal then old(terminalStates) + {state} else old(terminalStates)
      ensures transitions == old(transitions)
      ensures old(initialStates) <= initialStates && old(terminalStates) <= terminalStates
      ensures state in states && (isInitial ==> state in initialStates) && (isTerminal ==> state in terminalStates)
      ensures old(state in states && (isInitial ==> state in initialStates) && (isTerminal ==> state in terminalStates))
              ==> unchanged(this)
    {
      assert state in states ==> states + {state} == states;
      assert state in initialStates ==> initialStates + {state} == initialStates;
      assert state in terminalStates ==> terminalStates + {state} == terminalStates;
      states := states + {state};
      if isInitial {
        initialStates := initialStates + {state};
      }
      if isTerminal {
        terminalStates := terminalStates + {state};
      }
    }

    /** `get_initial_states`. */
    function GetInitialStates(): (r: set<State>)
      reads this
      ensures r == initialStates
    {
      initialStates
    }

    /** `get_terminal_states` as written: it hands back the INITIAL states. */
    function GetTerminalStates(): (r: set<State>)
      reads this
      ensures r == initialStates
      ensures r == GetInitialStates()
    {
      initialStates
    }

    /** The terminal-state accessor wired to the terminal set. */
    function TerminalStates(): (r: set<State>)
      reads this
      ensures r == terminalStates
      ensures initialStates != terminalStates ==> r != GetInitialStates()
    {
      terminalStates
    }

    /**
     * `add_transition`: inserts the triple, without checking that its
     * endpoints are registered states; inserting it again changes nothing.
     */
    method AddTransition(source: State, letter: Letter, dest: State)
      modifies this
      ensures old(Valid()) ==> Valid()
      ensures transitions == old(transitions) + {Transition(source, letter, dest)}
      ensures Transition(source, letter, dest) in transitions
      ensures states == old(states) && initialStates == old(initialStates) && terminalStates == old(terminalStates)
      ensures old(Transition(source, letter, dest) in transitions) ==> unchanged(this)
    {
      var t := Transition(source, letter, dest);
      assert t in transitions ==> transitions + {t} == transitions;
      transitions := transitions + {t};
    }

    /**
     * `get_transition`: scans the triples in an unspecified order and returns
     * the destination of the first one with the given source and letter.
     */
    method GetTransition(source: State, letter: Letter) returns (r: Option<State>)
      ensures r.Some? ==> Transition(source, letter, r.value) in transitions
      ensures r.None? <==> !Enabled(transitions, source, letter)
    {
      var rest := transitions;
      while rest != {}
        invariant rest <= transitions
        invariant forall t :: t in transitions - rest ==> !(t.source == source && t.letter == letter)
        decreases rest
      {
        var t :| t in rest;
        if t.source == source && t.letter == letter {
          return Some(t.dest);
        }
        rest := rest - {t};
      }
      return None;
    }

    /**
     * `accepts`: from the initial states, each letter maps every live state
     * through `GetTransition`; a live state without a transition aborts with
     * `Err(false)`. At the end the word is accepted when a live state is in
     * the terminal set.
     */
    method Accepts(word: seq<char>) returns (r: Outcome)
      ensures MayYield(transitions, terminalStates, initialStates, word, r)
      ensures r == Ok(true) || r == Err(false)
      ensures |word| == 0 ==> (r == Ok(true) <==> initialStates * terminalStates != {})
      ensures r == Ok(true) ==> PostWord(transitions, initialStates, word) * terminalStates != {}
      ensures Functional(transitions) ==> r == Run(transitions, terminalStates, initialStates, word)
    {
      var live := GetInitialStates();
      var i := 0;
      while i < |word|
        invariant 0 <= i <= |word|
        invariant forall r' :: MayYield(transitions, terminalStates, live, word[i..], r') ==>
                                 MayYield(transitions, terminalStates, initialStates, word, r')
      {
        var letter := [word[i]];
        var next := {};
        ghost var choice: map<State, State> := map[];
        var rest := live;
        while rest != {}
          invariant rest <= live
          invariant choice.Keys == live - rest
          invariant forall s :: s in choice ==> Transition(s, letter, choice[s]) in transitions
          invariant next == choice.Values
          decreases rest
        {
          var s :| s in rest;
          var succ := GetTransition(s, letter);
          if succ.None? {
            assert Stuck(transitions, live, word[i]);
            assert MayYield(transitions, terminalStates, live, word[i..], Err(false));
            r := Err(false);
            Consequences(word, r);
            return;
          }
          ValuesOfUpdate(choice, s, succ.value);
          next := next + {succ.value};
          choice := choice[s := succ.value];
          rest := rest - {s};
        }
        StepBack(live, next, word[i..], choice);
        live := next;
        i := i + 1;
      }
      assert word[i..] == [];
      var rest := live;
      while rest != {}
        invariant rest <= live
        invariant forall s :: s in live - rest ==> s !in terminalStates
        decreases rest
      {
        var s :| s in rest;
        if s in terminalStates {
          assert s in live * terminalStates;
          r := Ok(true);
          assert MayYield(transitions, terminalStates, live, word[i..], r);
          Consequences(word, r);
          return;
        }
        rest := rest - {s};
      }
      assert live * terminalStates == {};
      r := Err(false);
      assert MayYield(transitions, terminalStates, live, word[i..], r);
      Consequences(word, r);
    }

    /** One completed letter of `accepts` moves its invariant from `w` to `w[1..]`. */
    lemma StepBack(live: set<State>, next: set<State>, w: seq<char>, choice: map<State, State>)
      requires |w| > 0
      requires ChoiceOf(transitions, live, w[0], choice) && next == choice.Values
      ensures forall r' :: MayYield(transitions, terminalStates, next, w[1..], r') ==>
                             MayYield(transitions, terminalStates, live, w, r')
    {
      assert IsStep(transitions, live, w[0], next);
      forall s | s in live ensures Enabled(transitions, s, [w[0]]) {
        assert Transition(s, [w[0]], choice[s]) in transitions;
      }
    }

    /** The facts about an outcome of `accepts` that hold whatever the choices. */
    lemma Consequences(word: seq<char>, r: Outcome)
      requires MayYield(transitions, terminalStates, initialStates, word, r)
      ensures r == Ok(true) || r == Err(false)
      ensures |word| == 0 ==> (r == Ok(true) <==> initialStates * terminalStates != {})
      ensures r == Ok(true) ==> PostWord(transitions, initialStates, word) * terminalStates != {}
      ensures Functional(transitions) ==> r == Run(transitions, terminalStates, initialStates, word)
    {
      OutcomeIsOkTrueOrErrFalse(transitions, terminalStates, initialStates, word, r);
      if r == Ok(true) {
        AcceptanceIsSound(transitions, terminalStates, initialStates, word);
      }
      if Functional(transitions) {
        DeterministicOutcome(transitions, terminalStates, initialStates, word, r);
      }
    }
  }

  /**
   * On the driver's automaton (state 0 initial, state 1 terminal) the
   * terminal accessor as written reports the initial set, while the
   * corrected accessor reports the terminal one.
   */
  method TerminalAccessorDemo() returns (initial: set<State>, reported: set<State>, terminal: set<State>)
    ensures initial == {"0"} && reported == {"0"} && terminal == {"1"}
    ensures reported != terminal
  {
    var a := DriverAutomaton();
    initial := a.GetInitialStates();
    reported := a.GetTerminalStates();
    terminal := a.TerminalStates();
  }

  /**
   * The driver's automaton of `src/main.rs`: 0 initial, 1 terminal,
   * 0 -a-> 0 and 0 -b-> 1, built through the construction methods.
   */
  method DriverAutomaton() returns (a: Automata)
    ensures fresh(a) && a.Valid()
    ensures a.states == {"0", "1"} && a.initialStates == {"0"} && a.terminalStates == {"1"}
    ensures a.transitions == {Transition("0", "a", "0"), Transition("0", "b", "1")}
  {
    a := new Automata();
    a.AddState("0", true, false);
    a.AddState("1", false, true);
    a.AddTransition("0", "a", "0");
    a.AddTransition("0", "b", "1");
  }

  /** The driver's "aaa" stays in state 0, which is not terminal. */
  method DriverAaa() returns (r: Outcome)
    ensures r == Err(false)
  {
    var a := DriverAutomaton();
    SampleSteps(a.transitions);
    SampleAaa(a.transitions);
    r := a.Accepts("aaa");
  }

  /** The driver's "aaaab" ends in the terminal state 1. */
  method DriverAaaab() returns (r: Outcome)
    ensures r == Ok(true)
  {
    var a := DriverAutomaton();
    SampleSteps(a.transitions);
    SampleAaaab(a.transitions);
    r := a.Accepts("aaaab");
  }

  /** The driver's "abbaaa" reaches state 1, which has no transition on `b`: the abort rejects it. */
  method DriverAbbaaa() returns (r: Outcome)
    ensures r == Err(false)
  {
    var a := DriverAutomaton();
    SampleSteps(a.transitions);
    SampleAbbaaa(a.transitions);
    r := a.Accepts("abbaaa");
  }

  /** The driver's "ba" reaches state 1, which has no transition on `a`: the abort rejects it. */
  method DriverBa() returns (r: Outcome)
    ensures r == Err(false)
  {
    var a := DriverAutomaton();
    SampleSteps(a.transitions);
    SampleBa(a.transitions);
    r := a.Accepts("ba");
  }

  lemma SampleAaa(T: set<Transition>)
    requires !Stuck(T, {"0"}, 'a') && Post(T, {"0"}, 'a') == {"0"}
    ensures Run(T, {"1"}, {"0"}, "aaa") == Err(false)
  {
    SelfLoop(T, {"1"}, {"0"}, 'a', "aaa", "");
    assert "aaa" + "" == "aaa";
  }

  lemma SampleAaaab(T: set<Transition>)
    requires !Stuck(T, {"0"}, 'a') && Post(T, {"0"}, 'a') == {"0"}
    requires !Stuck(T, {"0"}, 'b') && Post(T, {"0"}, 'b') == {"1"}
    ensures Run(T, {"1"}, {"0"}, "aaaab") == Ok(true)
  {
    assert Run(T, {"1"}, {"0"}, "b") == Ok(true) by {
      assert "b"[1..] == "";
      assert "1" in {"1"} * {"1"};
    }
    SelfLoop(T, {"1"}, {"0"}, 'a', "aaaa", "b");
    assert "aaaa" + "b" == "aaaab";
  }

  lemma SampleAbbaaa(T: set<Transition>)
    requires !Stuck(T, {"0"}, 'a') && Post(T, {"0"}, 'a') == {"0"}
    requires !Stuck(T, {"0"}, 'b') && Post(T, {"0"}, 'b') == {"1"}
    requires Stuck(T, {"1"}, 'b')
    ensures Run(T, {"1"}, {"0"}, "abbaaa") == Err(false)
  {
    assert Run(T, {"1"}, {"0"}, "bbaaa") == Err(false) by {
      assert "bbaaa"[1..] == "baaa";
    }
    SelfLoop(T, {"1"}, {"0"}, 'a', "a", "bbaaa");
    assert "a" + "bbaaa" == "abbaaa";
  }

  lemma SampleBa(T: set<Transition>)
    requires !Stuck(T, {"0"}, 'b') && Post(T, {"0"}, 'b') == {"1"}
    requires Stuck(T, {"1"}, 'a')
    ensures Run(T, {"1"}, {"0"}, "ba") == Err(false)
  {
    assert "ba"[1..] == "a";
  }

  /** A letter that maps the live set onto itself can be skipped, however often it repeats. */
  lemma {:induction false} SelfLoop(T: set<Transition>, terminal: set<State>, S: set<State>, c: char, prefix: seq<char>, w: seq<char>)
    requires !Stuck(T, S, c) && Post(T, S, c) == S
    requires forall k :: 0 <= k < |prefix| ==> prefix[k] == c
    ensures Run(T, terminal, S, prefix + w) == Run(T, terminal, S, w)
    decreases |prefix|
  {
    if |prefix| > 0 {
      assert (prefix + w)[0] == c;
      assert (prefix + w)[1..] == prefix[1..] + w;
      SelfLoop(T, terminal, S, c, prefix[1..], w);
    } else {
      assert prefix + w == w;
    }
  }

  /** Each letter of the driver's automaton, one live set at a time. */
  lemma SampleSteps(T: set<Transition>)
    requires T == {Transition("0", "a", "0"), Transition("0", "b", "1")}
    ensures Functional(T)
    ensures !Stuck(T, {"0"}, 'a') && Post(T, {"0"}, 'a') == {"0"}
    ensures !Stuck(T, {"0"}, 'b') && Post(T, {"0"}, 'b') == {"1"}
    ensures Stuck(T, {"1"}, 'a') && Stuck(T, {"1"}, 'b')
  {
    SampleIsFunctional(T);
    SampleFromZero(T);
    SampleFromOne(T);
  }

  lemma SampleIsFunctional(T: set<Transition>)
    requires T == {Transition("0", "a", "0"), Transition("0", "b", "1")}
    ensures Functional(T)
  {
  }

  lemma SampleFromZero(T: set<Transition>)
    requires T == {Transition("0", "a", "0"), Transition("0", "b", "1")}
    ensures !Stuck(T, {"0"}, 'a') && Post(T, {"0"}, 'a') == {"0"}
    ensures !Stuck(T, {"0"}, 'b') && Post(T, {"0"}, 'b') == {"1"}
  {
    assert Transition("0", "a", "0") in T && Transition("0", "b", "1") in T;
    assert "0" in Post(T, {"0"}, 'a');
    assert "1" in Post(T, {"0"}, 'b');
  }

  lemma SampleFromOne(T: set<Transition>)
    requires T == {Transition("0", "a", "0"), Transition("0", "b", "1")}
    ensures Stuck(T, {"1"}, 'a') && Stuck(T, {"1"}, 'b')
  {
    assert !Enabled(T, "1", "a") && !Enabled(T, "1", "b");
  }
}
