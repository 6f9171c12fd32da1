/** The objects metrics are made from, the configuration of a family, and the
    external functions the generation of metrics relies on. */
module Resources {
  import opened Basics
  import opened Values
  import opened Flatten

  datatype Object = Object(
    uid: string,
    group: string, version: string, kind: string,
    namespace: string, name: string,
    content: Value)

  /** A parsed float64. */
  datatype Number = NaN | PosInf | NegInf | Finite(value: real)

  datatype MetricKind = Gauge | Counter

  datatype ResolverKind = Inherit | Unstructured | Cel | Starlark | Unknown

  /** What resolving an expression gives: texts by name. */
  type Resolution = map<string, string>

  /** Label names have at least one character. */
  type Name = s: string | s != "" witness "x"

  datatype Label = Label(name: Name, value: string)

  datatype Metric = Metric(labels: seq<Label>, value: string, resolver: ResolverKind)

  /** External functions: evaluation of a CEL expression, the lookup of a dotted
      path, strconv.ParseFloat, %f formatting, and label-name sanitization. What
      an evaluation depends on besides the object, the clock and the timeout, is
      its instant. */
  datatype Env = Env(
    evaluate: (int, string, Value) -> Value,
    lookup: (string, Value) -> Option<string>,
    parse: string -> Option<Number>,
    format: Number -> string,
    sanitize: string -> string)
  {
    /** What the externals keep: "" is no number; %f prints no line feed; a
        sanitized name holds only word characters, and some if the name has any
        character; the size of a map is an int. */
    ghost predicate Valid() {
      && (forall instant, query, content, r | Resolves(query, evaluate(instant, query, content), r) :: |r| < TWO_63)
      && parse("") == None
      && (forall x :: '\n' !in format(x))
      && (forall s :: (s != "" ==> sanitize(s) != "") && '\0' !in sanitize(s) && '\n' !in sanitize(s))
    }

    /** A path that is not found falls back to the query itself. */
    function Found(query: string, content: Value): Resolution {
      map[query := if lookup(query, content) == None then query else lookup(query, content).value]
    }

    /** r is a possible result of resolving the query. */
    ghost predicate MayResolve(rk: ResolverKind, query: string, content: Value, r: Resolution) {
      if rk == Unstructured then r == Found(query, content)
      else exists instant :: Resolves(query, evaluate(instant, query, content), r)
    }
  }
}
