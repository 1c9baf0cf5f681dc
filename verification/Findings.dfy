/** Findings and rules as the Python dictionaries they are, and the parts of Python's runtime that
    stay uninterpreted. */
module Findings {
  import opened Collections

  /** A JSON value; `Other` stands for floats, lists and objects, seen through str() and bool(). */
  datatype Val = Null | Bool(b: bool) | Num(n: int) | Text(s: string) | Other(repr: string, truthy: bool)

  type Finding = map<string, Val>
  type Rule = map<string, Val>
  type Record = map<string, Val>

  /** Regular expressions and number parsing are parameters of every theorem. */
  datatype Runtime = Runtime(
    compiles: string -> bool,
    search: (string, string) -> bool,
    parseInt: string -> Option<int>)

  function Get(f: Finding, key: string, default: Val): Val {
    if key in f then f[key] else default
  }

  function Digits(n: nat): string {
    var d := [('0' as int + n % 10) as char];
    if n < 10 then d else Digits(n / 10) + d
  }

  /** The number that decimal digits stand for. */
  function DigitsValue(s: string): int {
    if s == "" then 0 else 10 * DigitsValue(s[..|s| - 1]) + (s[|s| - 1] as int - '0' as int)
  }

  function Decimal(n: int): string {
    if n < 0 then "-" + Digits(-n) else Digits(n)
  }

  /** Python's str(). */
  function Str(v: Val): string {
    match v
    case Null => "None"
    case Bool(b) => if b then "True" else "False"
    case Num(n) => Decimal(n)
    case Text(s) => s
    case Other(repr, _) => repr
  }

  predicate Truthy(v: Val) {
    match v
    case Null => false
    case Bool(b) => b
    case Num(n) => n != 0
    case Text(s) => s != ""
    case Other(_, t) => t
  }

  /** Python's int(), or None where it raises TypeError or ValueError. */
  function ToInt(rt: Runtime, v: Val): Option<int> {
    match v
    case Null => None
    case Bool(b) => Some(if b then 1 else 0)
    case Num(n) => Some(n)
    case Text(s) => rt.parseInt(s)
    case Other(repr, _) => rt.parseInt(repr)
  }

  /** ASCII upper and lower case. */
  function Upper(s: string): string {
    seq(|s|, i requires 0 <= i < |s| => if 'a' <= s[i] <= 'z' then s[i] - 'a' + 'A' else s[i])
  }

  function Lower(s: string): string {
    seq(|s|, i requires 0 <= i < |s| => if 'A' <= s[i] <= 'Z' then s[i] - 'A' + 'a' else s[i])
  }

  predicate Contains(s: string, part: string) {
    exists i :: 0 <= i <= |s| && part <= s[i..]
  }
}
