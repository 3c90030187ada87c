/** What awk needs of a compiled regular expression: on a text it answers with
    the span of a match or with none. Which texts match is left open. */
module AwkRegex {

  datatype Span = NoMatch | Span(start: nat, end: nat)

  datatype Compiled = BadPattern | Compiled(find: string -> Span)

  /** Matches lie inside the text. */
  ghost predicate Sound(find: string -> Span) {
    forall s :: find(s).Span? ==> find(s).start <= find(s).end <= |s|
  }

  ghost predicate SoundCompiler(compile: string -> Compiled) {
    forall p :: compile(p).Compiled? ==> Sound(compile(p).find)
  }
}
