/** Small datatypes that every other module uses. */
module Basics {

  datatype Option<+T> = None | Some(value: T)

  /** A feed URL. The node compares URLs as exact strings (ADR 0051 section 1). */
  datatype Url = Url(text: string)

  /** A `podcast:guid`. */
  datatype Guid = Guid(text: string)

  function AsciiLower(c: char): char {
    if 'A' <= c <= 'Z' then c - 'A' + 'a' else c
  }

  /** `eq_ignore_ascii_case`. */
  predicate EqIgnoreAsciiCase(a: string, b: string) {
    |a| == |b| && forall i :: 0 <= i < |a| ==> AsciiLower(a[i]) == AsciiLower(b[i])
  }
}
