/** The collaborators of the string-appending example both generic
    builders are exercised with: an empty initial text and a mutator that
    appends the delta. */
module TextExample {
  function EmptyText(): string { "" }

  function AppendText(s: string, d: string): string { s + d }
}
