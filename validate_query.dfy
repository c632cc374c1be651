/**
 * The query validator of Go package `validate` (file pkg/http/validate/query.go):
 * the same algorithm as package `query`, with the validation engine injected
 * by the caller instead of built in.
 */
module Validate {
  import opened Wrappers
  import Query

  datatype QueryValidator = QueryValidator(validate: Query.Var)
  {
    /** `v.Validate(q, rules)`: the failing parameters with their errors, for any rule order. */
    method Validate(q: Query.Values, rules: map<string, string>) returns (e: map<string, ErrorMsg>)
      ensures e.Keys <= rules.Keys
      ensures forall p :: p in rules ==> (p in e <==> validate(Query.QueryGet(q, p), rules[p]).Some?)
      ensures forall p :: p in e ==> validate(Query.QueryGet(q, p), rules[p]) == Some(e[p])
    {
      e := Query.Validator(validate).Validate(q, rules);
      Query.FailuresExactly(validate, q, rules);
    }
  }
}
