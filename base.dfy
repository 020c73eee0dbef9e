/** Definitions shared by the models: an optional value (a lookup that may
    find nothing, a number parse that may give NaN) and the search for the
    first occurrence of a character. */
module Base {

  datatype Option<+T> = None | Some(value: T)

  /** The index of the first `c` in `s`, None when there is none: Python's
      `str.index` (None for the ValueError it raises) and JavaScript's
      `String.prototype.indexOf` (None for -1). */
  function IndexOf(s: string, c: char): (r: Option<nat>)
    ensures r.None? <==> c !in s
    ensures r.Some? ==> r.value < |s| && s[r.value] == c && c !in s[..r.value]
  {
    if s == [] then None
    else if s[0] == c then Some(0)
    else
      match IndexOf(s[1..], c)
      case None => None
      case Some(j) =>
        assert s[..j + 1] == [s[0]] + s[1..][..j];
        Some(j + 1)
  }
}
