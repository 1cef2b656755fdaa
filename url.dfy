/** The string part of `getUrl` in cmd/fortune.go: the lookup URL is the
    configured base, then the configured prefix, then the date, then the
    configured postfix with its guard underscore taken off. The three
    configuration strings are parameters; reading them is not modelled. */
module Url {
  import opened Wrappers
  import opened Text

  /** `strings.Split(postfix, "_")[1]`: the second field, or `None` where the
      Go index expression panics because there is no second field. */
  function PostfixField(postfix: string): (r: Option<string>)
    ensures r.Some? <==> '_' in postfix
    ensures r.Some? ==> '_' !in r.value
  {
    var fields := Split(postfix, '_');
    if |fields| >= 2 then Some(fields[1]) else None
  }

  /** The assembled URL, or `None` where `getUrl` panics. */
  function BuildUrl(base: string, prefix: string, date: string, postfix: string): (r: Option<string>)
    ensures r.Some? <==> '_' in postfix
  {
    match PostfixField(postfix)
    case None => None
    case Some(p) => Some(base + prefix + date + p)
  }

  /** For a postfix written as the text before its first underscore, the
      underscore, a field without one, and a rest that is empty or starts with
      an underscore, the URL is base ++ prefix ++ date ++ field. */
  lemma BuildUrlFormat(base: string, prefix: string, date: string, lead: string, field: string, rest: string)
    requires '_' !in lead && '_' !in field
    requires rest == [] || rest[0] == '_'
    ensures BuildUrl(base, prefix, date, lead + "_" + field + rest) == Some(base + prefix + date + field)
  {
    SplitSecondField(lead, field, rest, '_');
  }

  /** The configured form: a postfix that is an underscore followed by digits
      keeps its digits, leading zeros included. */
  lemma BuildUrlGuardedPostfix(base: string, prefix: string, date: string, digits: string)
    requires '_' !in digits
    ensures BuildUrl(base, prefix, date, "_" + digits) == Some(base + prefix + date + digits)
  {
    assert "_" + digits == [] + "_" + digits + [];
    BuildUrlFormat(base, prefix, date, [], digits, []);
  }
}
