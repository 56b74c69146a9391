/** The attribute selectors the client builds by splicing a variable name, unescaped,
    into `[data-variable="${name}"]`. The name becomes the contents of a CSS string token
    (section 4.3.5 of CSS Syntax Module Level 3), and an element matches when its
    `data-variable` attribute is exactly the token's value (section 6.3 of Selectors
    Level 4). */
module Selector {
  /** Code points the string token does not take literally: the closing quote, the escape
      character, the newlines that end the token (LF, CR, FF) and NUL, which the input
      preprocessing replaces. */
  predicate Special(c: char) {
    c == '"' || c == '\\' || c == '\n' || c == '\r' || c == '\U{C}' || c == '\0'
  }

  /** A name made only of code points the string token copies as they are. */
  predicate Plain(name: string) {
    forall i | 0 <= i < |name| :: !Special(name[i])
  }

  /** What `querySelector` makes of the selector: a SyntaxError with its message, or a
      comparison of `data-variable` with a value. */
  datatype Lookup = Invalid(message: string) | ByValue(value: string)

  /** The selector for `name`. The token copies ordinary code points one by one up to the
      template's closing quote, so a plain name is compared as itself; what the browser
      makes of any other name (an error, or a value changed by escapes or cut short by a
      quote) is the input `css`. */
  function Parse(name: string, css: string -> Lookup): (l: Lookup)
    ensures Plain(name) ==> l == ByValue(name)
    ensures !Plain(name) ==> l == css(name)
  {
    if Plain(name) then ByValue(name) else css(name)
  }

  /** The selector built from `name` finds the elements whose `data-variable` is `name`. */
  predicate SelectsItself(name: string, css: string -> Lookup) {
    Parse(name, css) == ByValue(name)
  }
}
