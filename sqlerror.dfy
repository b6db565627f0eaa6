/**
 * helper/errors/sqlerror.go: the debug rendering of a SQL query with its arguments
 * substituted for the $1, $2, ... placeholders.
 */
module SqlError {
  import opened Strs

  /** The dynamic value behind one interface{} query argument. */
  datatype QueryArg = StrArg(s: string) | IntArg(n: int) | BoolArg(b: bool) | NilArg

  /** fmt.Sprint of the argument. */
  function Sprint(a: QueryArg): string {
    match a
    case StrArg(s) => s
    case IntArg(n) => IntToDecimal(n)
    case BoolArg(b) => if b then "true" else "false"
    case NilArg => "<nil>"
  }

  /**
   * anyToQueryParam: a string argument between single quotes, with no escaping; any other
   * argument in its default print form, with "<nil>" turned into "null".
   */
  function AnyToQueryParam(a: QueryArg): (out: string)
    ensures a.StrArg? ==> |out| == |a.s| + 2 && out[0] == '\'' && out[|out| - 1] == '\'' && out[1..|out| - 1] == a.s
    ensures a.NilArg? ==> out == "null"
    ensures !a.StrArg? && !a.NilArg? ==> out == Sprint(a)
  {
    if a.StrArg? then "'" + a.s + "'"
    else
      var out := Sprint(a);
      if out == "<nil>" then "null" else out
  }

  /** The placeholder for the 1-based argument index i: "$" and i in decimal. */
  function Placeholder(i: nat): (p: string)
    ensures |p| >= 2 && p[0] == '$'
  {
    "$" + NatToDecimal(i)
  }

  /** The query after replacing $1 .. $n in turn, each over the text the previous ones left. */
  function Substituted(query: string, args: seq<QueryArg>): string
    decreases |args|
  {
    if |args| == 0 then query
    else ReplaceAll(Substituted(query, args[..|args| - 1]), Placeholder(|args|), AnyToQueryParam(args[|args| - 1]))
  }

  /** How fmt's %s verb prints one element of the []interface{} argument list. */
  function VerbS(a: QueryArg): string {
    match a
    case StrArg(s) => s
    case IntArg(n) => "%!s(int=" + IntToDecimal(n) + ")"
    case BoolArg(b) => "%!s(bool=" + (if b then "true" else "false") + ")"
    case NilArg => "<nil>"
  }

  function VerbSAll(args: seq<QueryArg>): seq<string> {
    seq(|args|, i requires 0 <= i < |args| => VerbS(args[i]))
  }

  /** fmt.Sprintf("query: %s\targs: %s", query, args). */
  function Fallback(query: string, args: seq<QueryArg>): string {
    "query: " + query + "\targs: [" + Join(VerbSAll(args), " ") + "]"
  }

  /**
   * The text FormatQueryError returns: the substituted query, unless there are no arguments
   * or the substituted text is empty, in which case the fallback rendering.
   */
  function QueryErrorText(query: string, args: seq<QueryArg>): string {
    var out := if |args| == 0 then "" else Substituted(query, args);
    if out == "" then Fallback(Substituted(query, args), args) else out
  }

  /** FormatQueryError. */
  method FormatQueryError(query: string, args: seq<QueryArg>) returns (out: string)
    ensures out == QueryErrorText(query, args)
    ensures |args| == 0 ==> out == "query: " + query + "\targs: []"
  {
    var q := query;
    out := "";
    var i := 0;
    while i < |args|
      invariant 0 <= i <= |args|
      invariant q == Substituted(query, args[..i])
      invariant out == if i == 0 then "" else q
    {
      assert args[..i + 1][..i] == args[..i];
      out := ReplaceAll(q, Placeholder(i + 1), AnyToQueryParam(args[i]));
      q := out;
      i := i + 1;
    }
    assert args[..|args|] == args;
    if out == "" {
      out := "query: " + q + "\targs: [" + Join(VerbSAll(args), " ") + "]";
    }
  }

  /** A placeholder-free prefix of the substitutions leaves the query as it is. */
  lemma {:induction false} SubstitutedAbsent(query: string, args: seq<QueryArg>)
    requires forall i :: 1 <= i <= |args| ==> !Contains(query, Placeholder(i))
    ensures Substituted(query, args) == query
    decreases |args|
  {
    if |args| > 0 {
      SubstitutedAbsent(query, args[..|args| - 1]);
      ReplaceAllAbsent(query, Placeholder(|args|), AnyToQueryParam(args[|args| - 1]));
    }
  }

  /** A non-empty query holding none of the placeholders $1 .. $n comes back unchanged. */
  lemma PlaceholderFreeQueryUnchanged(query: string, args: seq<QueryArg>)
    requires query != "" && |args| >= 1
    requires forall i :: 1 <= i <= |args| ==> !Contains(query, Placeholder(i))
    ensures QueryErrorText(query, args) == query
  {
    SubstitutedAbsent(query, args);
  }

  /** Text with no '$' contains no placeholder. */
  lemma NoDollarNoPlaceholder(s: string, i: nat)
    requires forall k :: 0 <= k < |s| ==> s[k] != '$'
    ensures !Contains(s, Placeholder(i))
  {
    var p := Placeholder(i);
    ContainsIffOccurs(s, p);
    forall k | 0 <= k <= |s| - |p| ensures !OccursAt(s, p, k) {
      assert s[k..k + |p|][0] == s[k];
    }
  }

  /**
   * The substitutions run in increasing index order, so with ten or more arguments "$10" is
   * rewritten by the first argument followed by a literal "0".
   */
  lemma OneIsReplacedInsideTen(a: string, rest: seq<QueryArg>)
    requires |rest| == 9
    requires forall k :: 0 <= k < |a| ==> a[k] != '$'
    ensures QueryErrorText("$10", [StrArg(a)] + rest) == "'" + a + "'0"
  {
    var args := [StrArg(a)] + rest;
    var first := "'" + a + "'0";
    assert Placeholder(1) == "$1";
    assert ReplaceAll("0", "$1", "'" + a + "'") == "0";
    assert ReplaceAll("$10", "$1", "'" + a + "'") == "'" + a + "'" + ReplaceAll("0", "$1", "'" + a + "'");
    assert args[..1] == [StrArg(a)];
    assert Substituted("$10", args[..1]) == first;
    forall k | 0 <= k < |first| ensures first[k] != '$' {
      if 1 <= k <= |a| { assert first[k] == a[k - 1]; }
    }
    var n := 1;
    while n < |args|
      invariant 1 <= n <= |args|
      invariant Substituted("$10", args[..n]) == first
    {
      assert args[..n + 1][..n] == args[..n];
      NoDollarNoPlaceholder(first, n + 1);
      ReplaceAllAbsent(first, Placeholder(n + 1), AnyToQueryParam(args[n]));
      n := n + 1;
    }
    assert args[..|args|] == args;
  }
}
