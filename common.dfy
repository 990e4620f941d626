/** Small value types and string helpers shared by the dashboard's modules. */
module Common {

  datatype Option<+T> = None | Some(value: T)

  /** The outcome of an awaited call that either yields a value or throws an Error carrying a message. */
  datatype Result<+T> = Ok(value: T) | Err(message: string)

  /** The outcome of an awaited call that yields nothing or throws. */
  datatype Outcome = Done | Failed(message: string)

  /** The fields of the signed-in user that the dashboard reads (the user record itself is owned by the auth context). */
  datatype User = User(messageLimit: int, messagesUsed: nat)

  /** An ASCII decimal digit: what the regular expression class `\d` matches and `\D` rejects. */
  predicate IsDigit(c: char) {
    '0' <= c <= '9'
  }

  /** The characters that JavaScript's `String.prototype.trim` removes: white space and line terminators. */
  predicate IsWhitespace(c: char) {
    || c in {' ', '\t', '\n', '\U{000B}', '\U{000C}', '\r', '\U{00A0}', '\U{1680}'}
    || c in {'\U{2028}', '\U{2029}', '\U{202F}', '\U{205F}', '\U{3000}', '\U{FEFF}'}
    || '\U{2000}' <= c <= '\U{200A}'
  }

  /** `s.trim() === ''`: the string holds nothing but white space. */
  predicate IsBlank(s: string) {
    forall i :: 0 <= i < |s| ==> IsWhitespace(s[i])
  }

  /** JavaScript truthiness of an optional string: present and non-empty. */
  predicate Truthy(s: Option<string>) {
    s.Some? && s.value != ""
  }

  /** `xs.slice(0, n)`: the first `n` elements, or all of them when there are fewer. */
  function Take<T>(xs: seq<T>, n: nat): (r: seq<T>)
    ensures |r| <= n && |r| <= |xs|
    ensures |xs| <= n ==> r == xs
    ensures r == xs[..|r|]
  {
    if |xs| <= n then xs else xs[..n]
  }

  /** How many items the "recent" lists show: the dashboard's recent sessions and the message history panel. */
  const RecentCount: nat := 5

  /** `slice(0, 5)` of a list kept newest first or in list order: its first five items, in order. */
  function Recent<T>(xs: seq<T>): (r: seq<T>)
    ensures |r| == if |xs| < RecentCount then |xs| else RecentCount
    ensures r == xs[..|r|]
  {
    Take(xs, RecentCount)
  }

  /** The decimal rendering of an integer, as a template literal `${n}` prints it. */
  function DecimalString(n: int): string
    decreases if n < 0 then 1 - n else n
  {
    if n < 0 then "-" + DecimalString(-n)
    else if n < 10 then [DigitChar(n)]
    else DecimalString(n / 10) + [DigitChar(n % 10)]
  }

  function DigitChar(d: int): char
    requires 0 <= d < 10
  {
    ['0', '1', '2', '3', '4', '5', '6', '7', '8', '9'][d]
  }
}
