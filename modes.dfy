/** The engine's tunnel mode and the two ways the façades turn a string into one. */
module Modes {
  import opened Common

  datatype TunnelMode = Global | Rule | Direct

  /** The engine's name for each mode (`TunnelMode.String()`). */
  function ModeName(m: TunnelMode): string
  {
    match m
    case Global => "global"
    case Rule => "rule"
    case Direct => "direct"
  }

  /** Go's `unicode.ToLower` wherever its result is an ASCII letter: the 26
      capitals, the dotted capital I (U+0130) and the Kelvin sign (U+212A).
      Every other character is kept; Go lowers some of them to other
      non-ASCII characters, which no mode name contains. */
  function LowerChar(c: char): (r: char)
    ensures r != c ==> 'a' <= r <= 'z'
    ensures 'a' <= r <= 'z' <==>
      ('a' <= c <= 'z' || 'A' <= c <= 'Z' || c == '\U{0130}' || c == '\U{212A}')
  {
    if 'A' <= c <= 'Z' then (c as int + 32) as char
    else if c == '\U{0130}' then 'i'
    else if c == '\U{212A}' then 'k'
    else c
  }

  function UpperChar(c: char): char
  {
    if 'a' <= c <= 'z' then (c as int - 32) as char else c
  }

  /** Letter-case folding of a string, character by character. */
  function Lower(s: string): (r: string)
    ensures |r| == |s|
    ensures forall i :: 0 <= i < |s| ==> r[i] == LowerChar(s[i])
  {
    if s == [] then [] else [LowerChar(s[0])] + Lower(s[1..])
  }

  function Upper(s: string): (r: string)
    ensures |r| == |s|
    ensures forall i :: 0 <= i < |s| ==> r[i] == UpperChar(s[i])
  {
    if s == [] then [] else [UpperChar(s[0])] + Upper(s[1..])
  }

  /** The `switch strings.ToLower(modeStr)` of `PatchTunnelMode`: a mode name in
      any letter case is recognised, anything else is rejected. */
  function ParseMode(s: string): (r: Option<TunnelMode>)
    ensures r.Some? <==> Lower(s) in {"global", "rule", "direct"}
    ensures r.Some? ==> ModeName(r.value) == Lower(s)
  {
    var l := Lower(s);
    if l == "global" then Some(Global)
    else if l == "rule" then Some(Rule)
    else if l == "direct" then Some(Direct)
    else None
  }

  /** The lookup `T.ModeMapping[mode]` of `SetTunnelMode`: an exact,
      case-sensitive match on the mode names; a missing key yields Go's zero
      value of the enumeration, which is `Global`. */
  function ModeMapping(s: string): (m: TunnelMode)
    ensures s in {"global", "rule", "direct"} ==> ModeName(m) == s
    ensures s !in {"global", "rule", "direct"} ==> m == Global
  {
    if s == "rule" then Rule
    else if s == "direct" then Direct
    else Global
  }

  lemma {:induction false} LowerOfUpper(s: string)
    requires Lower(s) == s
    ensures Lower(Upper(s)) == s
  {
    if s != [] {
      assert Lower(s[1..]) == s[1..] by {
        assert Lower(s)[1..] == Lower(s[1..]);
      }
      LowerOfUpper(s[1..]);
      assert Upper(s) == [UpperChar(s[0])] + Upper(s[1..]);
      assert LowerChar(UpperChar(s[0])) == s[0];
    }
  }

  /** Every mode name is accepted by `ParseMode` in lower and in upper case. */
  lemma ParseModeAcceptsNames(m: TunnelMode)
    ensures ParseMode(ModeName(m)) == Some(m)
    ensures ParseMode(Upper(ModeName(m))) == Some(m)
  {
    var n := ModeName(m);
    assert Lower(n) == n;
    LowerOfUpper(n);
  }

  /** The two parsers agree exactly on the lower-case names; on any other
      letter case `ModeMapping` falls back to `Global` while `ParseMode`
      still recognises the name. */
  lemma ModeMappingVersusParseMode(s: string)
    ensures Lower(s) == s && ParseMode(s).Some? ==> ModeMapping(s) == ParseMode(s).value
    ensures ParseMode(s).None? ==> ModeMapping(s) == Global
  {
    if ParseMode(s).None? && s in {"global", "rule", "direct"} {
      var m := ModeMapping(s);
      ParseModeAcceptsNames(m);
    }
  }

  /** The client façade accepts a dotted capital I where the name has an `i`. */
  lemma DottedCapitalIParses()
    ensures ParseMode("D\U{0130}RECT") == Some(Direct)
    ensures ModeMapping("D\U{0130}RECT") == Global
  {
    assert Lower("D\U{0130}RECT") == "direct";
  }

  /** `SetTunnelMode("RULE")` selects `Global`, `PatchTunnelMode("RULE")` selects `Rule`. */
  lemma UpperCaseRuleDiffers()
    ensures ModeMapping("RULE") == Global
    ensures ParseMode("RULE") == Some(Rule)
  {
  }
}
