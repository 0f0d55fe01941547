/**
 * The lookup step of the translation cache (MO::get_translation in
 * mo-cache.php) as a function on the cache state, and what a run of many
 * requests through it does.
 */
module Lookup {
  import opened Wrappers
  import opened Keys

  /**
   * What a translator answers. Both the catalog parser that the cache builds
   * lazily and a previously registered translator are seen only through
   * these two calls; their behaviour is left open.
   */
  datatype Translator = Translator(translate: seq<Arg> -> string, translatePlural: seq<Arg> -> string)

  /** call_user_func_array on a translator, choosing translate_plural for more than two arguments. */
  function Resolve(t: Translator, args: seq<Arg>): string
  {
    if |args| > 2 then t.translatePlural(args) else t.translate(args)
  }

  /** Resolving the argument list of translate() calls translate, that of translate_plural() calls translate_plural. */
  lemma ResolveDispatchesByCaller(t: Translator, text: string, context: Option<Arg>,
                                  singular: string, plural: string, count: int, pluralContext: Option<Arg>)
    ensures Resolve(t, TranslateArgs(text, context)) == t.translate(TranslateArgs(text, context))
    ensures Resolve(t, PluralArgs(singular, plural, count, pluralContext))
         == t.translatePlural(PluralArgs(singular, plural, count, pluralContext))
  {
  }

  /** The translators a cache can fall back on: the previous translator of its domain, if any, and its own catalog. */
  datatype Sources = Sources(override: Option<Translator>, catalog: Translator)

  /** The translator that answers misses: the override when present, the catalog otherwise. */
  function Answerer(src: Sources): Translator
  {
    if src.override.Some? then src.override.value else src.catalog
  }

  /** The mutable part of a cache: its entries, whether it missed, whether the catalog parser exists. */
  datatype State = State(cache: map<Key, string>, dirty: bool, upstreamBuilt: bool)

  datatype Outcome = Outcome(state: State, answer: string)

  /** get_translation($cache_key, $text, $args): a hit answers from the map, a miss resolves and stores. */
  function Step(s: State, key: Key, args: seq<Arg>, src: Sources): Outcome
  {
    if key in s.cache then Outcome(s, s.cache[key])
    else if src.override.Some? then
      var answer := Resolve(src.override.value, args);
      Outcome(State(s.cache[key := answer], true, s.upstreamBuilt), answer)
    else
      var answer := Resolve(src.catalog, args);
      Outcome(State(s.cache[key := answer], true, true), answer)
  }

  /** Every entry of `small` is in `big` with the same value. */
  ghost predicate Extends(big: map<Key, string>, small: map<Key, string>)
  {
    forall k :: k in small ==> k in big && big[k] == small[k]
  }

  /** Every entry holds what translator `t` answers for the entry's own argument list. */
  ghost predicate Coherent(cache: map<Key, string>, t: Translator)
  {
    forall k :: k in cache ==> cache[k] == Resolve(t, k.args)
  }

  /** One call of get_translation: the key the caller computed and the argument list it passes on. */
  datatype Request = Request(key: Key, args: seq<Arg>)

  /** A request keyed on its own argument list, as translate() keys its requests. */
  predicate SelfKeyed(r: Request)
  {
    r.key.args == r.args
  }

  /** A lookup keyed on its own argument list keeps the cache coherent and answers as the translator would. */
  lemma StepKeepsCoherent(s: State, r: Request, src: Sources)
    requires Coherent(s.cache, Answerer(src)) && SelfKeyed(r)
    ensures var o := Step(s, r.key, r.args, src);
      Coherent(o.state.cache, Answerer(src)) && o.answer == Resolve(Answerer(src), r.args)
  {
  }

  /** Folds the lookup over a sequence of requests. */
  function Run(s: State, src: Sources, reqs: seq<Request>): State
    decreases |reqs|
  {
    if reqs == [] then s
    else Run(Step(s, reqs[0].key, reqs[0].args, src).state, src, reqs[1..])
  }

  /** The answers of the requests, in order. */
  function Answers(s: State, src: Sources, reqs: seq<Request>): seq<string>
    decreases |reqs|
  {
    if reqs == [] then []
    else
      var o := Step(s, reqs[0].key, reqs[0].args, src);
      [o.answer] + Answers(o.state, src, reqs[1..])
  }

  /** How many requests of the run consulted the override or the catalog. */
  function Misses(s: State, src: Sources, reqs: seq<Request>): (n: nat)
    ensures n <= |reqs|
    decreases |reqs|
  {
    if reqs == [] then 0
    else
      var o := Step(s, reqs[0].key, reqs[0].args, src);
      (if reqs[0].key in s.cache then 0 else 1) + Misses(o.state, src, reqs[1..])
  }

  /** How many requests of the run constructed the catalog parser. */
  function Builds(s: State, src: Sources, reqs: seq<Request>): nat
    decreases |reqs|
  {
    if reqs == [] then 0
    else
      var o := Step(s, reqs[0].key, reqs[0].args, src);
      (if reqs[0].key !in s.cache && src.override.None? && !s.upstreamBuilt then 1 else 0)
        + Builds(o.state, src, reqs[1..])
  }

  /** A run only adds entries: nothing stored before is removed or changed. */
  lemma {:induction false} RunOnlyGrows(s: State, src: Sources, reqs: seq<Request>)
    ensures Extends(Run(s, src, reqs).cache, s.cache)
    decreases |reqs|
  {
    if reqs != [] {
      var s1 := Step(s, reqs[0].key, reqs[0].args, src).state;
      RunOnlyGrows(s1, src, reqs[1..]);
    }
  }

  /** After a run, every request's key is cached, and each answer is the final entry under its key. */
  lemma {:induction false} AnswersAreFinalEntries(s: State, src: Sources, reqs: seq<Request>)
    ensures |Answers(s, src, reqs)| == |reqs|
    ensures forall i :: 0 <= i < |reqs| ==>
      reqs[i].key in Run(s, src, reqs).cache && Answers(s, src, reqs)[i] == Run(s, src, reqs).cache[reqs[i].key]
    decreases |reqs|
  {
    if reqs != [] {
      var s1 := Step(s, reqs[0].key, reqs[0].args, src).state;
      AnswersAreFinalEntries(s1, src, reqs[1..]);
      RunOnlyGrows(s1, src, reqs[1..]);
      forall i | 0 < i < |reqs|
        ensures reqs[i].key in Run(s, src, reqs).cache && Answers(s, src, reqs)[i] == Run(s, src, reqs).cache[reqs[i].key]
      {
        assert reqs[i] == reqs[1..][i - 1];
      }
    }
  }

  /** After a run, every request of it is cached. */
  lemma RunCachesEveryRequest(s: State, src: Sources, reqs: seq<Request>)
    ensures forall i :: 0 <= i < |reqs| ==> reqs[i].key in Run(s, src, reqs).cache
  {
    AnswersAreFinalEntries(s, src, reqs);
  }

  /** A run whose requests are all cached already is all hits: no consultation, no change, answers from the map. */
  lemma {:induction false} WarmRunIsIdle(s: State, src: Sources, reqs: seq<Request>)
    requires forall i :: 0 <= i < |reqs| ==> reqs[i].key in s.cache
    ensures Run(s, src, reqs) == s
    ensures Misses(s, src, reqs) == 0
    ensures Answers(s, src, reqs) == seq(|reqs|, i requires 0 <= i < |reqs| => s.cache[reqs[i].key])
    decreases |reqs|
  {
    if reqs != [] {
      assert reqs[0].key in s.cache;
      forall i | 0 <= i < |reqs[1..]|
        ensures reqs[1..][i].key in s.cache
      {
        assert reqs[1..][i] == reqs[i + 1];
      }
      WarmRunIsIdle(s, src, reqs[1..]);
    }
  }

  /** Running `a` then `b` is running `a + b`: same state, misses added up, answers concatenated. */
  lemma {:induction false} RunAppend(s: State, src: Sources, a: seq<Request>, b: seq<Request>)
    ensures Run(s, src, a + b) == Run(Run(s, src, a), src, b)
    ensures Misses(s, src, a + b) == Misses(s, src, a) + Misses(Run(s, src, a), src, b)
    ensures Answers(s, src, a + b) == Answers(s, src, a) + Answers(Run(s, src, a), src, b)
    decreases |a|
  {
    if a == [] {
      assert a + b == b;
    } else {
      var s1 := Step(s, a[0].key, a[0].args, src).state;
      assert (a + b)[0] == a[0];
      assert (a + b)[1..] == a[1..] + b;
      RunAppend(s1, src, a[1..], b);
    }
  }

  /**
   * Replaying a run on the state it produced consults nothing, changes nothing
   * and gives the same answers; so running the requests twice in a row misses
   * only as often as running them once.
   */
  lemma ReplayIsIdle(s: State, src: Sources, reqs: seq<Request>)
    ensures var s1 := Run(s, src, reqs);
      && Run(s1, src, reqs) == s1 && Misses(s1, src, reqs) == 0
      && Answers(s1, src, reqs) == Answers(s, src, reqs)
    ensures Run(s, src, reqs + reqs) == Run(s, src, reqs)
    ensures Misses(s, src, reqs + reqs) == Misses(s, src, reqs)
    ensures Answers(s, src, reqs + reqs) == Answers(s, src, reqs) + Answers(s, src, reqs)
  {
    AnswersAreFinalEntries(s, src, reqs);
    WarmRunIsIdle(Run(s, src, reqs), src, reqs);
    RunAppend(s, src, reqs, reqs);
  }

  /** The state is dirty after a run exactly when it was before or some request of the run missed. */
  lemma {:induction false} DirtyIffMissed(s: State, src: Sources, reqs: seq<Request>)
    ensures Run(s, src, reqs).dirty <==> s.dirty || Misses(s, src, reqs) > 0
    decreases |reqs|
  {
    if reqs != [] {
      var s1 := Step(s, reqs[0].key, reqs[0].args, src).state;
      DirtyIffMissed(s1, src, reqs[1..]);
    }
  }

  /**
   * The catalog parser is constructed at most once over any run, never when an
   * override is present or the parser already exists, and it exists after the
   * run exactly when it did before or the run built it.
   */
  lemma {:induction false} UpstreamBuiltAtMostOnce(s: State, src: Sources, reqs: seq<Request>)
    ensures Builds(s, src, reqs) <= 1
    ensures s.upstreamBuilt || src.override.Some? ==> Builds(s, src, reqs) == 0
    ensures Run(s, src, reqs).upstreamBuilt <==> s.upstreamBuilt || Builds(s, src, reqs) == 1
    decreases |reqs|
  {
    if reqs != [] {
      var s1 := Step(s, reqs[0].key, reqs[0].args, src).state;
      UpstreamBuiltAtMostOnce(s1, src, reqs[1..]);
    }
  }

  /**
   * Starting from a coherent cache, every answer of a run of requests keyed on
   * their own argument lists is what the answering translator gives for that
   * request, and the cache stays coherent.
   */
  lemma {:induction false} RunIsTransparent(s: State, src: Sources, reqs: seq<Request>)
    requires Coherent(s.cache, Answerer(src))
    requires forall i :: 0 <= i < |reqs| ==> SelfKeyed(reqs[i])
    ensures Coherent(Run(s, src, reqs).cache, Answerer(src))
    ensures |Answers(s, src, reqs)| == |reqs|
    ensures forall i :: 0 <= i < |reqs| ==> Answers(s, src, reqs)[i] == Resolve(Answerer(src), reqs[i].args)
    decreases |reqs|
  {
    if reqs != [] {
      StepKeepsCoherent(s, reqs[0], src);
      var s1 := Step(s, reqs[0].key, reqs[0].args, src).state;
      forall i | 0 <= i < |reqs[1..]|
        ensures SelfKeyed(reqs[1..][i])
      {
        assert reqs[1..][i] == reqs[i + 1];
      }
      RunIsTransparent(s1, src, reqs[1..]);
      forall i | 0 < i < |reqs|
        ensures Answers(s, src, reqs)[i] == Resolve(Answerer(src), reqs[i].args)
      {
        assert reqs[i] == reqs[1..][i - 1];
      }
    }
  }

  /** A catalog whose plural answers name the singular they were asked for, as a gettext lookup by msgid does. */
  function NamingCatalog(): Translator
  {
    Translator(
      (args: seq<Arg>) => if |args| > 0 && args[0].Str? then args[0].s else "",
      (args: seq<Arg>) => if |args| > 0 && args[0].Str? then "[" + args[0].s + "]" else "")
  }

  /**
   * With the plural key as written, "%d apple"/"%d items" and "%d pear"/"%d items"
   * at count 2 share one entry: the second request is a hit and gets the
   * first request's translation instead of its own.
   */
  lemma AsWrittenPluralKeyServesWrongEntry()
    ensures var src := Sources(None, NamingCatalog());
      var apples := PluralArgs("%d apple", "%d items", 2, None);
      var pears := PluralArgs("%d pear", "%d items", 2, None);
      var k := PluralKeyAsWritten("%d apple", "%d items", 2, None, "shop");
      var first := Step(State(map[], false, false), k, apples, src);
      var second := Step(first.state, PluralKeyAsWritten("%d pear", "%d items", 2, None, "shop"), pears, src);
      second.answer == Resolve(NamingCatalog(), apples) && second.answer != Resolve(NamingCatalog(), pears)
  {
    var apples := PluralArgs("%d apple", "%d items", 2, None);
    var pears := PluralArgs("%d pear", "%d items", 2, None);
    PluralKeyAsWrittenDropsUnselectedText("%d apple", "%d pear", "%d items", "%d items", 2, None, "shop");
    assert Resolve(NamingCatalog(), apples) == "[%d apple]";
    assert Resolve(NamingCatalog(), pears) == "[%d pear]";
    assert "[%d apple]"[4] != "[%d pear]"[4];
  }

  /** Keyed on the argument list as passed, the same two requests get separate entries and their own translations. */
  lemma CorrectedPluralKeyServesOwnEntry()
    ensures var src := Sources(None, NamingCatalog());
      var apples := PluralArgs("%d apple", "%d items", 2, None);
      var pears := PluralArgs("%d pear", "%d items", 2, None);
      var first := Step(State(map[], false, false), Hash(apples, "shop"), apples, src);
      var second := Step(first.state, Hash(pears, "shop"), pears, src);
      second.answer == Resolve(NamingCatalog(), pears) && second.answer != first.answer
  {
    var apples := PluralArgs("%d apple", "%d items", 2, None);
    var pears := PluralArgs("%d pear", "%d items", 2, None);
    assert apples[0] != pears[0];
    assert Resolve(NamingCatalog(), apples) == "[%d apple]";
    assert Resolve(NamingCatalog(), pears) == "[%d pear]";
    assert "[%d apple]"[4] != "[%d pear]"[4];
  }
}
