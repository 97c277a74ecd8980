/** The program keys its registers by one string, the context id, two colons and the file's id, and recognizes the keys
of a context by their prefix. That is the same as keeping the two apart unless one context id continues another with
a colon. */
module GenerationKeys {
  import opened DiffProtocol
  import Paths

  function KeyText(k: Key): string {
    k.context + "::" + k.document
  }

  /** The other way for a key to pass the prefix test of a context: its own context id goes on past that prefix, or the
      context's id goes on past the key's context with colons that the key's text happens to hold. */
  predicate Straddles(k: Key, context: string) {
    if |context| < |k.context| then Paths.StartsWith(k.context + ":", context + "::")
    else |context| > |k.context| && Paths.StartsWith(context, k.context)
         && Paths.StartsWith("::" + k.document, context[|k.context|..] + "::")
  }

  lemma PrefixOfSum(a: string, b: string, p: string)
    requires |p| >= |a|
    ensures Paths.StartsWith(a + b, p) <==> p[..|a|] == a && Paths.StartsWith(b, p[|a|..])
  {
    if Paths.StartsWith(a + b, p) {
      assert (a + b)[..|p|][..|a|] == a && (a + b)[..|p|][|a|..] == b[..|p| - |a|];
    }
    if p[..|a|] == a && Paths.StartsWith(b, p[|a|..]) {
      assert p == p[..|a|] + p[|a|..] && (a + b)[..|p|] == a + b[..|p| - |a|];
    }
  }

  lemma ShortPrefixOfSum(a: string, b: string, p: string)
    requires |p| <= |a|
    ensures Paths.StartsWith(a + b, p) <==> Paths.StartsWith(a, p)
  {
    assert (a + b)[..|p|] == a[..|p|];
  }

  /** The prefix test finds the keys of the context, and besides exactly the straddling ones. What follows the prefix
      of a key of the context is the file's id. */
  lemma PrefixMeansContext(k: Key, context: string)
    ensures Paths.StartsWith(KeyText(k), context + "::") <==> k.context == context || Straddles(k, context)
    ensures k.context == context ==> KeyText(k)[|context| + 2..] == k.document
  {
    var prefix := context + "::";
    if |context| < |k.context| {
      assert KeyText(k) == (k.context + ":") + (":" + k.document);
      ShortPrefixOfSum(k.context + ":", ":" + k.document, prefix);
    } else {
      assert KeyText(k) == k.context + ("::" + k.document);
      PrefixOfSum(k.context, "::" + k.document, prefix);
      assert prefix[..|k.context|] == context[..|k.context|] && prefix[|k.context|..] == context[|k.context|..] + "::";
      if |context| == |k.context| {
        assert context[|k.context|..] + "::" == "::" && Paths.StartsWith("::" + k.document, "::");
      }
    }
    assert k.context == context ==> KeyText(k)[..|k.context| + 2] == k.context + "::";
  }

  /** Straddling takes a colon in one of the two ids. */
  lemma StraddlingTakesColon(k: Key, context: string)
    ensures Straddles(k, context) ==> ':' in k.context || ':' in context
  {
    if Straddles(k, context) {
      if |context| < |k.context| {
        assert (k.context + ":")[|context|] == (context + "::")[|context|] == ':';
        assert k.context[|context|] == ':';
      } else {
        var rest := context[|k.context|..];
        assert ("::" + k.document)[0] == (rest + "::")[0] == rest[0];
        assert context[|k.context|] == ':';
      }
    }
  }

  /** Two different keys have one text only if one context id continues the other with a colon. */
  lemma KeyTextIsInjective(k: Key, l: Key)
    requires |k.context| <= |l.context|
    ensures KeyText(k) == KeyText(l) && k != l ==> Paths.StartsWith(l.context, k.context + ":")
  {
    if KeyText(k) == KeyText(l) {
      assert KeyText(k) == k.context + ("::" + k.document) && KeyText(l) == l.context + ("::" + l.document);
      assert KeyText(k)[..|k.context|] == k.context && KeyText(l)[..|k.context|] == l.context[..|k.context|];
      if |k.context| < |l.context| {
        assert KeyText(k)[|k.context|] == ':' && KeyText(l)[|k.context|] == l.context[|k.context|];
        assert l.context[..|k.context| + 1] == k.context + ":";
      } else {
        assert KeyText(k)[|k.context| + 2..] == k.document && KeyText(l)[|k.context| + 2..] == l.document;
      }
    }
  }
}
