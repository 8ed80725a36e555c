/** When a text says nothing. */
module OutboxText {
  /** The characters Python's strip removes, within ASCII. */
  predicate IsSpace(c: char) {
    c == ' ' || 9 <= c as int <= 13 || 28 <= c as int <= 31
  }

  /** Nothing is left of the text once stripped. */
  predicate Blank(text: string) {
    forall i | 0 <= i < |text| :: IsSpace(text[i])
  }
}
