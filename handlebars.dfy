/**
 * The two template helpers registered with Handlebars (src/handlebars.ts):
 * `env` turns a name into a shell variable name, `length` measures a string.
 * A helper argument that is absent is `None`; JavaScript treats it and the
 * empty string as falsy.
 */
module Handlebars {
  import opened Wrappers
  import opened Ascii

  /** String.prototype.replace(/-/g, '_'). */
  function ReplaceDashes(s: string): (r: string)
    ensures |r| == |s|
  {
    seq(|s|, i requires 0 <= i < |s| => if s[i] == '-' then '_' else s[i])
  }

  /** The `env` helper: upper-case, then every `-` becomes `_`; falsy input gives "". */
  function Env(str: Option<string>): (r: string)
    ensures !Truthy(str) ==> r == ""
    ensures Truthy(str) ==> |r| == |str.value|
    ensures '-' !in r
    ensures forall i :: 0 <= i < |r| ==> !IsLower(r[i])
  {
    if Truthy(str) then ReplaceDashes(Upper(str.value)) else ""
  }

  /** What `env` does to each character of a non-empty argument. */
  lemma EnvAt(s: string, i: nat)
    requires i < |s|
    ensures |Env(Some(s))| == |s|
    ensures Env(Some(s))[i] == if s[i] == '-' then '_' else UpperChar(s[i])
  {
  }

  /** Applying `env` to its own output changes nothing. */
  lemma EnvIdempotent(str: Option<string>)
    ensures Env(Some(Env(str))) == Env(str)
  {
    var r := Env(str);
    var rr := Env(Some(r));
    if r != "" {
      forall i | 0 <= i < |r|
        ensures rr[i] == r[i]
      {
        assert r[i] != '-';
        assert !IsLower(r[i]);
      }
    }
  }

  /** An ASCII argument gives an ASCII result with no lower-case letter and no dash. */
  lemma EnvAscii(s: string)
    requires s != "" && IsAsciiString(s)
    ensures IsAsciiString(Env(Some(s)))
  {
    var r := Env(Some(s));
    forall i | 0 <= i < |r|
      ensures r[i] < 128 as char
    {
      EnvAt(s, i);
    }
  }

  /** The `length` helper: 0 for a falsy argument, else the string's length. */
  function Length(str: Option<string>): (r: nat)
    ensures str.None? ==> r == 0
    ensures str.Some? ==> r == |str.value|
  {
    if Truthy(str) then |str.value| else 0
  }
}
