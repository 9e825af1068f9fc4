/** `env_bool` (server/common.py:8-10): reading a flag from the environment. */
module Env {
  import opened Wrappers

  /** `str.lower()` on the letters that matter here: ASCII capitals. */
  function LowerChar(c: char): (r: char)
    ensures 'A' <= c <= 'Z' ==> r as int == c as int + 32
    ensures !('A' <= c <= 'Z') ==> r == c
  {
    if 'A' <= c <= 'Z' then (c as int + 32) as char else c
  }

  function Lower(s: string): (r: string)
    ensures |r| == |s| && forall i | 0 <= i < |s| :: r[i] == LowerChar(s[i])
  {
    if s == [] then [] else [LowerChar(s[0])] + Lower(s[1..])
  }

  /** `str(default)`: Python spells the booleans with a capital. */
  function BoolText(b: bool): string {
    if b then "True" else "False"
  }

  /**
   * `os.getenv(name, str(default)).lower() in ('true', '1')`, with the
   * variable's value (`None` when unset) as input.
   */
  function EnvBool(value: Option<string>, default: bool): bool {
    var v := if value.Some? then value.value else BoolText(default);
    Lower(v) == "true" || Lower(v) == "1"
  }

  /** An unset variable gives the default back. */
  lemma EnvBoolUnset(default: bool)
    ensures EnvBool(None, default) == default
  {
    if default {
      assert Lower("True") == "true";
    } else {
      assert Lower("False") != "true" && Lower("False") != "1" by {
        assert |Lower("False")| == 5;
      }
    }
  }

  /**
   * A set variable is true exactly when it spells `true` in any mix of
   * cases, or is `1`; the default then plays no part.
   */
  lemma EnvBoolSet(v: string, default: bool)
    ensures EnvBool(Some(v), default) <==>
      v == "1" || (|v| == 4 && v[0] in "tT" && v[1] in "rR" && v[2] in "uU" && v[3] in "eE")
  {
    var l := Lower(v);
    if v == "1" {
      assert l == "1";
    } else if |v| == 4 && v[0] in "tT" && v[1] in "rR" && v[2] in "uU" && v[3] in "eE" {
      assert l == "true";
    }
  }

  /** The cases of the flag's documentation: capitalised spellings count, other words do not, whatever the default. */
  lemma EnvBoolExamples(default: bool)
    ensures EnvBool(Some("TRUE"), default) && EnvBool(Some("True"), default) && EnvBool(Some("1"), default)
    ensures !EnvBool(Some("yes"), default) && !EnvBool(Some("0"), default) && !EnvBool(Some(""), default)
    ensures !EnvBool(Some("false"), true)
  {
    EnvBoolSet("TRUE", default);
    EnvBoolSet("True", default);
    EnvBoolSet("1", default);
    EnvBoolSet("yes", default);
    EnvBoolSet("0", default);
    EnvBoolSet("", default);
    EnvBoolSet("false", true);
  }
}
