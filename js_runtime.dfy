/** The parts of the JavaScript runtime the data-preparation code depends on: arrays as they arrive
    from untrusted callers, and strings seen as UTF-16 code units. */
module JsRuntime {

  /** A value that `Array.isArray` either rejects or accepts; when it accepts, the elements. */
  datatype JsArray<+T> = NotAnArray | Elements(elements: seq<T>)

  /** The UTF-16 encoding of one character: one code unit inside the Basic Multilingual Plane, a
      surrogate pair above it. */
  function CharCodeUnits(c: char): (units: seq<bv16>)
    ensures 1 <= |units| <= 2
    ensures (c as int) < 0x10000 <==> |units| == 1
  {
    var v := c as int;
    if v < 0x10000 then [v as bv16]
    else
      var w := v - 0x10000;
      [(0xD800 + w / 0x400) as bv16, (0xDC00 + w % 0x400) as bv16]
  }

  /** What `s.length` and `s.charCodeAt(i)` see: the string as a sequence of UTF-16 code units. */
  function CodeUnits(s: string): (units: seq<bv16>)
    ensures |units| >= |s|
  {
    if s == [] then [] else CodeUnits(s[..|s| - 1]) + CharCodeUnits(s[|s| - 1])
  }

  predicate IsAscii(s: string) {
    forall k :: 0 <= k < |s| ==> (s[k] as int) < 128
  }

  /** On an all-ASCII string there is one code unit per character, and it is the character's code. */
  lemma {:induction false} AsciiCodeUnits(s: string)
    requires IsAscii(s)
    ensures |CodeUnits(s)| == |s|
    ensures forall k :: 0 <= k < |s| ==> CodeUnits(s)[k] == (s[k] as int) as bv16
  {
    if s != [] {
      var init := s[..|s| - 1];
      assert IsAscii(init) by {
        forall k | 0 <= k < |init| ensures (init[k] as int) < 128 {
          assert init[k] == s[k];
        }
      }
      AsciiCodeUnits(init);
    }
  }
}
