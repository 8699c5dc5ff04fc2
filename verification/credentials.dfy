/**
 * `validateToken`: the shape check both backends apply to a Discord bot
 * token. A token is accepted when splitting it on `.` yields exactly three
 * parts and it is longer than 30 characters.
 */
module Credentials {
  import opened Text

  /** The length a token must exceed. */
  const MinTokenLength := 30

  /** `validateToken(token)` for a string argument. */
  predicate ValidateToken(token: string) {
    |Split(token, '.')| == 3 && |token| > MinTokenLength
  }

  /** The rule counts separators: exactly two dots, not "at least three parts". */
  lemma ValidTokenIffTwoDots(token: string)
    ensures ValidateToken(token) <==> Count(token, '.') == 2 && |token| > MinTokenLength
  {
    SplitCount(token, '.');
  }

  /**
   * A token assembled from three dot-free segments is valid exactly when it
   * is long enough; its three parts are the segments themselves.
   */
  lemma {:induction false} ThreeSegmentToken(a: string, b: string, c: string)
    requires '.' !in a && '.' !in b && '.' !in c
    ensures Split(a + "." + b + "." + c, '.') == [a, b, c]
    ensures ValidateToken(a + "." + b + "." + c) <==> |a| + |b| + |c| + 2 > MinTokenLength
  {
    var parts := [a, b, c];
    assert Join(parts[2..], '.') == c;
    assert Join(parts[1..], '.') == b + "." + c;
    assert Join(parts, '.') == a + "." + b + "." + c;
    SplitJoin(parts, '.');
  }

  /** A fourth segment makes an otherwise well-formed token invalid, however long it is. */
  lemma {:induction false} FourSegmentsRejected(a: string, b: string, c: string, d: string)
    requires '.' !in a && '.' !in b && '.' !in c && '.' !in d
    ensures !ValidateToken(a + "." + b + "." + c + "." + d)
  {
    var parts := [a, b, c, d];
    assert Join(parts[3..], '.') == d;
    assert Join(parts[2..], '.') == c + "." + d;
    assert Join(parts[1..], '.') == b + "." + c + "." + d;
    assert Join(parts, '.') == a + "." + b + "." + c + "." + d;
    SplitJoin(parts, '.');
  }
}
