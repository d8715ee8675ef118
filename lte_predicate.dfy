/**
  The "less than or equal to" predicate of the SQL builder. Its constructor
  fixes the template `%1 <= %2`; rendering checks that exactly two values are
  given, puts the quoted column in place of `%1` and then the quoted value in
  place of `%2`, and wraps the text in parentheses.

  The builder's quoting (`quoteId`, `quote`) is passed in as two functions.
 */
module LessThanOrEqualToPredicate {
  import opened OrderedMap
  import opened PhpValues
  import opened Strings

  const Template: string := "%1 <= %2"

  const ArityMessage: string := "Error: The values array must have 2 values in it."

  /** A predicate object: its template, its values array and the conjunction
      that joins it to the predicates before it. */
  datatype Predicate = Predicate(format: string, values: seq<(Key, Value)>, conjunction: string)

  /** `new LessThanOrEqualTo($values, $conjunction = 'AND')`. */
  function LessThanOrEqualTo(values: seq<(Key, Value)>, conjunction: string := "AND"): (p: Predicate)
    ensures p.format == Template
    ensures p.values == values && p.conjunction == conjunction
  {
    Predicate(Template, values, conjunction)
  }

  /** The element that list destructuring reads at position `i`. */
  function Element(values: seq<(Key, Value)>, i: int): Value {
    match Get(values, IntKey(i))
    case Some(v) => v
    case None => Null
  }

  /** `render($sql)`: `str_replace` with the search list `['%1', '%2']`
      replaces `%1` first and then `%2` in the intermediate text. */
  function Render(p: Predicate, quoteId: Value -> string, quote: Value -> string): (r: Result<string>)
    ensures r.Err? <==> |p.values| != 2
    ensures r.Err? ==> r.error == DbException(ArityMessage)
    ensures r.Ok? ==> |r.value| >= 2 && r.value[0] == '(' && r.value[|r.value| - 1] == ')'
  {
    if |p.values| != 2 then Err(DbException(ArityMessage))
    else
      var column, value := Element(p.values, 0), Element(p.values, 1);
      var body := ReplaceAll(ReplaceAll(p.format, "%1", quoteId(column)), "%2", quote(value));
      Ok("(" + body + ")")
  }

  /** The first step puts `c` in place of `%1`; `c` is not scanned again. */
  lemma FirstPlaceholderStep(c: string)
    ensures ReplaceAll(Template, "%1", c) == c + " <= %2"
  {
    var tail := " <= %2";
    assert Template[..2] == "%1" && Template[2..] == tail;
    NotContainsPair(tail, "%1");
    ReplaceAbsent(tail, "%1", c);
  }

  /** The template's own `%2`, at the very end, becomes `v`. */
  lemma TemplateTailStep(v: string)
    ensures ReplaceAll(" <= %2", "%2", v) == " <= " + v
  {
    NotContainsPair(" <= ", "%2");
    NotContainsPair("", "%2");
    NoStraddlePair(" <= ", "%2", "%2");
    ReplaceOnce(" <= ", "%2", "", v);
    assert " <= " + ("%2" + "") == " <= %2";
    assert " <= " + (v + "") == " <= " + v;
  }

  /** Substituting into the template: `%1` becomes `c`, and the `%2` of the
      template and every `%2` inside `c` become `v`. */
  lemma TemplateSubstitution(c: string, v: string)
    ensures ReplaceAll(ReplaceAll(Template, "%1", c), "%2", v) == ReplaceAll(c, "%2", v) + " <= " + v
  {
    FirstPlaceholderStep(c);
    NoStraddlePair(c, " <= %2", "%2");
    ReplaceSplit(c, " <= %2", "%2", v);
    TemplateTailStep(v);
  }

  /** What a predicate built by the constructor with two values renders to. */
  lemma RenderedComparison(values: seq<(Key, Value)>, conjunction: string,
                           quoteId: Value -> string, quote: Value -> string)
    requires |values| == 2
    ensures var c, v := quoteId(Element(values, 0)), quote(Element(values, 1));
      Render(LessThanOrEqualTo(values, conjunction), quoteId, quote)
        == Ok("(" + ReplaceAll(c, "%2", v) + " <= " + v + ")")
  {
    var c, v := quoteId(Element(values, 0)), quote(Element(values, 1));
    var body := ReplaceAll(ReplaceAll(Template, "%1", c), "%2", v);
    assert Render(LessThanOrEqualTo(values, conjunction), quoteId, quote) == Ok("(" + body + ")");
    TemplateSubstitution(c, v);
    var x := ReplaceAll(c, "%2", v);
    ParenthesiseComparison(x, v);
  }

  lemma ParenthesiseComparison(x: string, v: string)
    ensures "(" + (x + " <= " + v) + ")" == "(" + x + " <= " + v + ")"
  {
  }

  /** When the quoted column holds no `%2`, the output is the plain comparison. */
  lemma RenderedPlainComparison(values: seq<(Key, Value)>, conjunction: string,
                                quoteId: Value -> string, quote: Value -> string)
    requires |values| == 2 && !Contains(quoteId(Element(values, 0)), "%2")
    ensures var c, v := quoteId(Element(values, 0)), quote(Element(values, 1));
      Render(LessThanOrEqualTo(values, conjunction), quoteId, quote)
        == Ok("(" + c + " <= " + v + ")")
  {
    RenderedComparison(values, conjunction, quoteId, quote);
    ReplaceAbsent(quoteId(Element(values, 0)), "%2", quote(Element(values, 1)));
  }

  /** Substitution order: a `%2` that quoting the column produced is replaced
      by the quoted value as well, here for a column quoted as `a%2`. */
  lemma SecondPlaceholderFromColumnReplaced(v: string)
    ensures ReplaceAll(ReplaceAll(Template, "%1", "a%2"), "%2", v) == "a" + v + " <= " + v
  {
    TemplateSubstitution("a%2", v);
    assert "a%2" == "a" + "%2";
    NoStraddlePair("a", "%2", "%2");
    ReplaceSplit("a", "%2", "%2", v);
    assert ReplaceAll("%2", "%2", v) == v + ReplaceAll("", "%2", v);
  }
}
