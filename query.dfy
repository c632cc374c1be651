/**
 * Query-parameter validation (Go package `query`, file validator.go): every
 * rule is checked against the first value of its parameter, and the result
 * maps each failing parameter to the error the validation engine returned.
 */
module Query {
  import opened Wrappers

  /** `url.Values`: parameter name to its values, names compared exactly. */
  type Values = map<string, seq<string>>

  /** The validation engine: checks a value against a rule, `None` meaning it passes. */
  type Var = (string, string) -> Option<ErrorMsg>

  /** `q.Get(param)`: the first value of `param`, or "" when it has none. */
  function QueryGet(q: Values, param: string): (v: string)
    ensures (param !in q || q[param] == []) ==> v == ""
    ensures param in q && q[param] != [] ==> v == q[param][0]
  {
    if param in q && |q[param]| > 0 then q[param][0] else ""
  }

  /** The error the engine reports for `param`, checked against its rule. */
  function Check(validate: Var, q: Values, rules: map<string, string>, param: string): Option<ErrorMsg>
    requires param in rules
  {
    validate(QueryGet(q, param), rules[param])
  }

  /** The failing parameters, each with the error reported for it. */
  function Failures(validate: Var, q: Values, rules: map<string, string>): map<string, ErrorMsg>
  {
    map p | p in rules && Check(validate, q, rules, p).Some? :: Check(validate, q, rules, p).value
  }

  datatype Validator = Validator(validate: Var)
  {
    /**
     * `v.Validate(q, rules)`. The rules are visited in whatever order the map
     * yields them; the result is the same for every order.
     */
    method Validate(q: Values, rules: map<string, string>) returns (e: map<string, ErrorMsg>)
      ensures e == Failures(validate, q, rules)
    {
      e := map[];
      var pending := rules.Keys;
      while pending != {}
        invariant pending <= rules.Keys
        invariant forall p :: p in e <==> p in rules && p !in pending && Check(validate, q, rules, p).Some?
        invariant forall p :: p in e ==> Check(validate, q, rules, p) == Some(e[p])
        decreases pending
      {
        var param :| param in pending;
        var err := validate(QueryGet(q, param), rules[param]);
        if err.Some? {
          e := e[param := err.value];
        }
        pending := pending - {param};
      }
      assert e.Keys == Failures(validate, q, rules).Keys;
    }
  }

  /**
   * A parameter is reported exactly when its rule fails, with the engine's
   * error; passing parameters are absent, and only ruled parameters appear.
   */
  lemma FailuresExactly(validate: Var, q: Values, rules: map<string, string>)
    ensures Failures(validate, q, rules).Keys <= rules.Keys
    ensures forall p :: p in rules ==>
      (p in Failures(validate, q, rules) <==> validate(QueryGet(q, p), rules[p]).Some?)
    ensures forall p :: p in Failures(validate, q, rules) ==>
      validate(QueryGet(q, p), rules[p]) == Some(Failures(validate, q, rules)[p])
  {
  }

  /** A missing parameter is validated as "", and only the first of several values counts. */
  lemma ValueChecked(validate: Var, q: Values, rules: map<string, string>, p: string)
    requires p in rules
    ensures p !in q ==> (p in Failures(validate, q, rules) <==> validate("", rules[p]).Some?)
    ensures p in q && q[p] != [] ==>
      (p in Failures(validate, q, rules) <==> validate(q[p][0], rules[p]).Some?)
  {
  }

  /** No rules, or no failing rule, gives the empty map. */
  lemma NoFailures(validate: Var, q: Values, rules: map<string, string>)
    requires forall p :: p in rules ==> validate(QueryGet(q, p), rules[p]).None?
    ensures Failures(validate, q, rules) == map[]
  {
  }

  /**
   * Every rule is evaluated: when every rule fails, every parameter is
   * reported, whatever fails before it.
   */
  lemma AllFailuresReported(validate: Var, q: Values, rules: map<string, string>)
    requires forall p :: p in rules ==> validate(QueryGet(q, p), rules[p]).Some?
    ensures Failures(validate, q, rules).Keys == rules.Keys
  {
  }

  /** Rules {a: required, b: required}, query {a: [x]}, an engine that rejects only "": only b is reported. */
  lemma RequiredExample(err: ErrorMsg)
    ensures var required := (v: string, rule: string) => if v == "" then Some(err) else None;
      Failures(required, map["a" := ["x"]], map["a" := "required", "b" := "required"]) == map["b" := err]
  {
    var required := (v: string, rule: string) => if v == "" then Some(err) else None;
    var q := map["a" := ["x"]];
    var rules := map["a" := "required", "b" := "required"];
    assert QueryGet(q, "a") == "x";
    assert QueryGet(q, "b") == "";
    assert Failures(required, q, rules).Keys == {"b"};
  }
}
