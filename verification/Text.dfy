/** String operations of the host language that the models rely on. */
module Text {
  /** White space as `String.prototype.trim` understands it. */
  predicate IsSpace(c: char)
  {
    '\U{0009}' <= c <= '\U{000D}' || c == ' ' || c == '\U{00A0}' || c == '\U{1680}' ||
    '\U{2000}' <= c <= '\U{200A}' || c == '\U{2028}' || c == '\U{2029}' ||
    c == '\U{202F}' || c == '\U{205F}' || c == '\U{3000}' || c == '\U{FEFF}'
  }

  predicate IsAlphanumeric(c: char)
  {
    'A' <= c <= 'Z' || 'a' <= c <= 'z' || '0' <= c <= '9'
  }

  /** Number of leading white-space characters. */
  function LeadingSpaces(s: string): (n: nat)
    ensures n <= |s|
    ensures forall i :: 0 <= i < n ==> IsSpace(s[i])
    ensures n < |s| ==> !IsSpace(s[n])
  {
    if s == [] || !IsSpace(s[0]) then 0 else 1 + LeadingSpaces(s[1..])
  }

  /** Number of trailing white-space characters. */
  function TrailingSpaces(s: string): (n: nat)
    ensures n <= |s|
    ensures forall i :: |s| - n <= i < |s| ==> IsSpace(s[i])
    ensures n < |s| ==> !IsSpace(s[|s| - n - 1])
  {
    if s == [] || !IsSpace(s[|s| - 1]) then 0 else 1 + TrailingSpaces(s[..|s| - 1])
  }

  function Trim(s: string): (t: string)
    ensures t == [] <==> forall c :: c in s ==> IsSpace(c)
  {
    var left := LeadingSpaces(s);
    var right := TrailingSpaces(s);
    if left == |s| then
      []
    else
      assert !IsSpace(s[left]) && s[left] in s;
      assert |s| - right > left;
      s[left..|s| - right]
  }

  /** What is cut off is all the white space at both ends, and nothing else. */
  lemma TrimIs(s: string) returns (left: nat, right: nat)
    ensures left <= right <= |s| && Trim(s) == s[left..right]
    ensures (forall k :: 0 <= k < left ==> IsSpace(s[k])) && (forall k :: right <= k < |s| ==> IsSpace(s[k]))
    ensures left < right ==> !IsSpace(s[left]) && !IsSpace(s[right - 1])
  {
    hide IsSpace;
    left := LeadingSpaces(s);
    right := if left == |s| then |s| else |s| - TrailingSpaces(s);
    assert left == |s| ==> s[left..right] == [];
  }

  function Join(parts: seq<string>, separator: string): (text: string)
  {
    if parts == [] then ""
    else if |parts| == 1 then parts[0]
    else parts[0] + separator + Join(parts[1..], separator)
  }

  lemma {:induction false} JoinSnoc(parts: seq<string>, part: string, separator: string)
    requires parts != []
    ensures Join(parts + [part], separator) == Join(parts, separator) + separator + part
  {
    if |parts| > 1 {
      JoinSnoc(parts[1..], part, separator);
      assert (parts + [part])[1..] == parts[1..] + [part];
    } else {
      assert (parts + [part])[1..] == [part];
    }
  }
}
