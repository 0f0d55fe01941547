/**
 * Cache keys of the translation cache (class MO in mo-cache.php).
 *
 * A request is keyed on the list of arguments it was called with plus the
 * text domain. The source hashes that pair with md5(json_encode(...)); the
 * model keeps the pair itself, an injective stand-in for the hash.
 */
module Keys {
  import opened Wrappers

  /** A PHP scalar passed to translate() or translate_plural(). */
  datatype Arg = Null | Str(s: string) | Int(n: int)

  /** The cache key: an argument list and the text domain. */
  datatype Key = Key(args: seq<Arg>, domain: string)

  /** MO::hash: the key of an argument list in a domain. */
  function Hash(args: seq<Arg>, domain: string): Key
  {
    Key(args, domain)
  }

  /** Two keys are equal exactly when the argument lists and the domains are. */
  lemma HashInjective(args1: seq<Arg>, domain1: string, args2: seq<Arg>, domain2: string)
    ensures Hash(args1, domain1) == Hash(args2, domain2) <==> args1 == args2 && domain1 == domain2
  {
  }

  /**
   * func_get_args() inside translate($text, $context = null): the context is
   * part of the list only when the caller passed it, even as null.
   */
  function TranslateArgs(text: string, context: Option<Arg>): (args: seq<Arg>)
    ensures 1 <= |args| <= 2 && args[0] == Str(text)
    ensures |args| == 2 <==> context.Some?
    ensures context.Some? ==> args[1] == context.value
  {
    match context
    case None => [Str(text)]
    case Some(c) => [Str(text), c]
  }

  /** func_get_args() inside translate_plural($singular, $plural, $count, $context = null). */
  function PluralArgs(singular: string, plural: string, count: int, context: Option<Arg>): (args: seq<Arg>)
    ensures 3 <= |args| <= 4
    ensures args[..3] == [Str(singular), Str(plural), Int(count)]
    ensures |args| == 4 <==> context.Some?
    ensures context.Some? ==> args[3] == context.value
  {
    match context
    case None => [Str(singular), Str(plural), Int(count)]
    case Some(c) => [Str(singular), Str(plural), Int(count), c]
  }

  /** translate("x") and translate("x", null) are different requests with different keys. */
  lemma OmittedContextIsNotNullContext(text: string, domain: string)
    ensures Hash(TranslateArgs(text, None), domain) != Hash(TranslateArgs(text, Some(Null)), domain)
  {
  }

  /** A singular request and a plural request never share a key. */
  lemma SingularAndPluralKeysDiffer(text: string, context: Option<Arg>,
                                    singular: string, plural: string, count: int, pluralContext: Option<Arg>,
                                    domain: string)
    ensures Hash(TranslateArgs(text, context), domain) != Hash(PluralArgs(singular, plural, count, pluralContext), domain)
    ensures Hash(TranslateArgs(text, context), domain) != PluralKeyAsWritten(singular, plural, count, pluralContext, domain)
  {
  }

  function Abs(n: int): nat
  {
    if n < 0 then -n else n
  }

  /** The text translate_plural selects: the singular for the counts 1 and -1, the plural for every other count. */
  function PluralText(singular: string, plural: string, count: int): (text: string)
    ensures count == 1 || count == -1 ==> text == singular
    ensures count != 1 && count != -1 ==> text == plural
  {
    if Abs(count) == 1 then singular else plural
  }

  /** The key translate_plural computes as written: [text, count, context] and the domain. */
  function PluralKeyAsWritten(singular: string, plural: string, count: int, context: Option<Arg>,
                              domain: string): Key
  {
    Hash([Str(PluralText(singular, plural, count)), Int(count), context.GetOr(Null)], domain)
  }

  /**
   * As written, the plural key holds only the selected text: for a count other
   * than 1 and -1 the singular is not part of it, and for 1 and -1 the plural is not.
   */
  lemma PluralKeyAsWrittenDropsUnselectedText(singular1: string, singular2: string,
                                              plural1: string, plural2: string,
                                              count: int, context: Option<Arg>, domain: string)
    ensures Abs(count) != 1 ==>
      PluralKeyAsWritten(singular1, plural1, count, context, domain) == PluralKeyAsWritten(singular2, plural1, count, context, domain)
    ensures Abs(count) == 1 ==>
      PluralKeyAsWritten(singular1, plural1, count, context, domain) == PluralKeyAsWritten(singular1, plural2, count, context, domain)
  {
  }

  /** The argument lists of as-written plural keys: a string, an integer, and one more value. */
  predicate AsWrittenPluralShape(args: seq<Arg>)
  {
    |args| == 3 && args[0].Str? && args[1].Int?
  }

  /** Every as-written plural key has that shape and the domain it was computed in. */
  lemma PluralKeyAsWrittenShape(singular: string, plural: string, count: int, context: Option<Arg>, domain: string)
    ensures var k := PluralKeyAsWritten(singular, plural, count, context, domain);
      k.domain == domain && AsWrittenPluralShape(k.args)
  {
  }

  /**
   * No argument list of translate() or translate_plural() has that shape, so
   * a key computed from a request's own argument list is never an as-written plural key.
   */
  lemma OwnArgsAreNotAsWrittenPluralShape(text: string, context: Option<Arg>,
                                          singular: string, plural: string, count: int, pluralContext: Option<Arg>)
    ensures !AsWrittenPluralShape(TranslateArgs(text, context))
    ensures !AsWrittenPluralShape(PluralArgs(singular, plural, count, pluralContext))
  {
    assert PluralArgs(singular, plural, count, pluralContext)[1] == PluralArgs(singular, plural, count, pluralContext)[..3][1];
  }

  /**
   * Two plural requests share the as-written key exactly when they select the
   * same text with the same count and the same context (an omitted one counting as null).
   */
  lemma PluralKeysAsWrittenCoincide(singular1: string, plural1: string, count1: int, context1: Option<Arg>,
                                    singular2: string, plural2: string, count2: int, context2: Option<Arg>,
                                    domain: string)
    ensures PluralKeyAsWritten(singular1, plural1, count1, context1, domain)
         == PluralKeyAsWritten(singular2, plural2, count2, context2, domain)
        <==> PluralText(singular1, plural1, count1) == PluralText(singular2, plural2, count2)
             && count1 == count2 && context1.GetOr(Null) == context2.GetOr(Null)
  {
    var a1 := [Str(PluralText(singular1, plural1, count1)), Int(count1), context1.GetOr(Null)];
    var a2 := [Str(PluralText(singular2, plural2, count2)), Int(count2), context2.GetOr(Null)];
    if a1 == a2 {
      assert a1[0] == a2[0] && a1[1] == a2[1] && a1[2] == a2[2];
    }
  }
}
