# Automata store and word acceptance, in Dafny

A model of the `Automata` struct of `src/automata.rs`: a store of four string
sets (states, transition triples `(source, letter, dest)`, initial states and
terminal states), the methods that fill it, the transition lookup, and
`accepts`, which runs a word through the set of live states letter by letter.

- `wrappers.dfy`, module `Wrappers`: Rust's `Option` and `Result`.
- `automata.dfy`, module `Automata`: class `Automata` with the four sets as
  fields. `AddState` and `AddTransition` reassign them. `GetTransition` and
  `Accepts` are methods with the source's loops, proved against the
  functions of `Semantics`. The module also holds clients that rebuild the
  automaton of `src/main.rs` and run its words.
- `semantics.dfy`, module `Semantics`: what `accepts` computes, stated over
  values, with the lemmas about it.

`get_transition` returns the destination of the first matching triple in a
`HashSet`'s iteration order, which the program does not fix. The model
therefore lets each call return any matching destination. `IsStep` says
which live sets one letter of `accepts` can produce: each live state
contributes one destination of a triple that leaves it on that letter.
`MayYield` is the set of outcomes `accepts` can return. `Accepts` ensures
that its result is one of them. The lemmas then show four things:

- every such outcome is `Ok(true)` or `Err(false)`;
- `Ok(true)` is only returned when some run of the automaton reaches a
  terminal state;
- the live set never grows;
- when no (source, letter) pair has two destinations, the outcome is unique
  and equals `Run`.

A letter is a one-character string `[c]`, as produced by `letter.into()` at
src/automata.rs:65. Transition letters are arbitrary strings, so a triple
with a longer label is stored but never matches.

The code does not follow the usual description of NFA acceptance in two
places. The model follows the code:

- A live state with no transition on the current letter makes `accepts`
  return `Err(false)` at once, even if another live state would go on to
  accept. The lemma `MissingTransitionRejects` gives an automaton and a word
  where the subset simulation (`PostWord`) reaches a terminal state but
  `accepts` rejects.
- Only one destination is followed per live state, not all of them.
  `AcceptanceIsSound` proves this is sound: it never accepts a word the
  automaton does not accept. It is not complete.

## Model

| member | source | states |
|---|---|---|
| Automata.Automata.constructor | src/automata.rs:12-19 | `new` yields an automaton whose states, transitions, initial and terminal sets are all empty |
| Automata.Automata.AddState | src/automata.rs:21-31 | the state becomes registered; it joins the initial set exactly when `is_initial` holds and the terminal set exactly when `is_terminal` holds; earlier flags are never cleared; transitions are unchanged; a call with nothing new to add leaves every set unchanged (idempotence); keeps initial and terminal within the registered states |
| Automata.Automata.GetInitialStates | src/automata.rs:33-35 | returns the initial set |
| Automata.Automata.GetTerminalStates | src/automata.rs:37-39 | returns the INITIAL set, the same value as `GetInitialStates`, not the terminal set |
| Automata.Automata.TerminalStates | src/automata.rs:37-39 | corrected accessor: returns the terminal set, and differs from the initial accessor whenever the two sets differ |
| Automata.TerminalAccessorDemo | src/automata.rs:37-39 | on the driver's automaton (0 initial, 1 terminal) the accessor as written reports {0} where the terminal set is {1} |
| Automata.Automata.AddTransition | src/automata.rs:41-43 | the triple joins the transition set; states, initial and terminal sets are untouched, so endpoints need not be registered; re-adding a present triple changes nothing |
| Automata.Automata.GetTransition | src/automata.rs:45-53 | a `Some(d)` result is the destination of a stored triple with that source and letter; `None` exactly when no stored triple has that source and letter; which match is found is left open |
| Automata.Automata.Accepts | src/automata.rs:55-84 | the result is one of the outcomes `MayYield` allows for the initial set and the word; it is `Ok(true)` or `Err(false)`; on the empty word `Ok(true)` iff some initial state is terminal; `Ok(true)` only when the subset simulation reaches a terminal state; with functional transitions it equals `Run` |
| Semantics.Run | src/automata.rs:55-84 | reference outcome for functional transitions, by recursion on the word; only `Ok(true)` or `Err(false)` |
| Semantics.StepShrinks | src/automata.rs:61-70 | after one letter the live set holds only successors of live states, is no larger than before (one successor per state), and is empty exactly when it was empty |
| Semantics.StepExists | src/automata.rs:63-68 | when no live state lacks a transition on the letter, the inner loop can always complete: some next live set exists |
| Semantics.OutcomeIsOkTrueOrErrFalse | src/automata.rs:55-84 | whatever destinations the lookup picks, `accepts` returns only `Ok(true)` or `Err(false)` |
| Semantics.EmptyLiveRejects | src/automata.rs:60-83 | once the live set is empty, the rest of the word keeps it empty and the word is rejected with `Err(false)` |
| Semantics.PostWordMonotone | src/automata.rs:60-71 | a larger live set reaches a larger set of states along any word |
| Semantics.AcceptanceIsSound | src/automata.rs:55-84 | an `Ok(true)` outcome implies that the states reachable along the word by any transitions include a terminal state |
| Semantics.FunctionalStep | src/automata.rs:45-53 | when each (source, letter) pair has at most one destination, the lookup's choice is forced and one letter yields exactly all successors |
| Semantics.DeterministicOutcome | src/automata.rs:55-84 | with functional transitions an outcome is possible if and only if it equals `Run` (both directions) |
| Semantics.RunIsGuardedSubsetSimulation | src/automata.rs:55-84 | `Run` accepts if and only if no live set along the word gets stuck and the subset simulation ends in a terminal state |
| Semantics.MissingTransitionRejects | src/automata.rs:64-66 | initial {0, 2}, terminal {1}, one triple (0, a, 1): the word "a" reaches {1}, yet every outcome is `Err(false)`, because state 2 has no transition on `a` |
| Semantics.EitherBranchAccepts | src/automata.rs:45-53 | 0 -a-> B, 0 -a-> C, B -a-> 1, C -a-> 1: whichever destination the lookup picks from 0, "aa" is accepted |
| Automata.DriverAutomaton | src/main.rs:6-10 | the construction calls build states {0, 1}, initial {0}, terminal {1} and the triples (0, a, 0), (0, b, 1) |
| Automata.DriverAaa | src/main.rs:12 | "aaa" is rejected with `Err(false)`: it ends in state 0 |
| Automata.DriverAaaab | src/main.rs:13 | "aaaab" is accepted with `Ok(true)` |
| Automata.DriverAbbaaa | src/main.rs:14 | "abbaaa" is rejected: state 1 has no transition on `b` |
| Automata.DriverBa | src/main.rs:15 | "ba" is rejected: state 1 has no transition on `a` |

## Left out

- Subset construction (determinization) and alphabet discovery: neither exists in `src/automata.rs` or `src/main.rs`.
- A lookup returning every matching destination: the source has only the first-match `get_transition`.
- `HashSet` iteration order: sets are Dafny `set`s, and each iteration picks an arbitrary remaining element. Every `get_transition` call may pick a different match. Real code would pick the same match for the same (source, letter) while the set is unchanged, so the model allows more outcomes than the program can produce. Every property proved here covers the program too.
- Ownership, cloning and `to_owned`: values are immutable in the model.
- The `Debug` derive and the `println!` calls of `src/main.rs`: output is not modelled. The driver's last word "aaaaaaaaaab" (src/main.rs:16) is not replayed.
- `unwrap_or(false)` in `src/main.rs`: the clients return the `Result` itself.

## Findings

| source | as written | input that shows it | evidently intended | confidence | as-written member | corrected member |
|---|---|---|---|---|---|---|
| src/automata.rs:37-39 | `get_terminal_states` returns `&self.initial_states` | the driver's automaton (state 0 initial, state 1 terminal): the accessor returns {0} | return the terminal set, {1} | not executed; high (the accessor is named after the other field) | Automata.TerminalAccessorDemo | Automata.Automata.TerminalStates |

`accepts` reads the `terminal_states` field directly (src/automata.rs:77), so
the defect does not change any acceptance result. The model keeps
`GetTerminalStates` as written. `TerminalStates` is the accessor callers
should use.
