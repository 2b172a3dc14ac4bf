/** Names as the database compares and measures them. */
module Names {

  /** NOCASE folds the twenty-six ASCII letters only. */
  function FoldChar(c: char): char {
    if 'A' <= c <= 'Z' then (c as int - 'A' as int + 'a' as int) as char else c
  }

  function Folded(s: string): string {
    if s == "" then "" else [FoldChar(s[0])] + Folded(s[1..])
  }

  predicate SameName(a: string, b: string) {
    Folded(a) == Folded(b)
  }

  function WithoutLeft(s: string): string {
    if s != "" && s[0] == ' ' then WithoutLeft(s[1..]) else s
  }

  function WithoutRight(s: string): string {
    if s != "" && s[|s| - 1] == ' ' then WithoutRight(s[..|s| - 1]) else s
  }

  /** trim() removes spaces on both sides. */
  function Trimmed(s: string): string {
    WithoutRight(WithoutLeft(s))
  }
}
