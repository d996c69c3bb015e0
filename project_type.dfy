/**
 * `extract_project_type`: the first task keyword, in a fixed order, that
 * occurs in the lower-cased text.
 */
module ProjectType {
  import opened Wrappers
  import opened Text

  /** The task keywords, in the order the scan tries them. */
  const Keywords: seq<string> := ["drilling", "installation", "exploration", "production", "maintenance"]

  /**
   * The first of `words` that is a substring of `hay`: the answer occurs,
   * no word before it occurs, and there is no answer exactly when no word occurs.
   */
  function FirstMatch(words: seq<string>, hay: string): (r: Option<string>)
    ensures r.Some? ==> r.value in words && IsSubstring(r.value, hay)
    ensures r.Some? ==> exists j :: 0 <= j < |words| && words[j] == r.value &&
                                    forall i :: 0 <= i < j ==> !IsSubstring(words[i], hay)
    ensures r.None? <==> forall w :: w in words ==> !IsSubstring(w, hay)
  {
    if words == [] then None
    else if IsSubstring(words[0], hay) then Some(words[0])
    else
      var r := FirstMatch(words[1..], hay);
      assert forall w :: w in words ==> w == words[0] || w in words[1..];
      if r.Some? then
        var j :| 0 <= j < |words[1..]| && words[1..][j] == r.value &&
                 forall i :: 0 <= i < j ==> !IsSubstring(words[1..][i], hay);
        assert words[j + 1] == r.value;
        assert forall i :: 0 <= i < j + 1 ==> !IsSubstring(words[i], hay);
        r
      else r
  }

  /** The contract of FirstMatch pins the answer down: it is the only word that occurs with no earlier word occurring. */
  lemma {:induction false} FirstMatchUnique(words: seq<string>, hay: string, j: nat)
    requires j < |words| && IsSubstring(words[j], hay)
    requires forall i :: 0 <= i < j ==> !IsSubstring(words[i], hay)
    ensures FirstMatch(words, hay) == Some(words[j])
  {
    var r := FirstMatch(words, hay);
    assert words[j] in words;
    var j' :| 0 <= j' < |words| && words[j'] == r.value &&
              forall i :: 0 <= i < j' ==> !IsSubstring(words[i], hay);
    assert IsSubstring(words[j], hay) && IsSubstring(words[j'], hay);
  }

  /**
   * `extract_project_type(text)`: lower-case the text, then return the first
   * keyword occurring in it, or None.
   */
  function ExtractProjectType(text: string): (r: Option<string>)
    ensures r.Some? ==> r.value in Keywords && IsSubstring(r.value, LowerString(text))
    ensures r.Some? ==> exists j :: 0 <= j < |Keywords| && Keywords[j] == r.value &&
                                    forall i :: 0 <= i < j ==> !IsSubstring(Keywords[i], LowerString(text))
    ensures r.None? <==> forall w :: w in Keywords ==> !IsSubstring(w, LowerString(text))
    ensures text == [] ==> r.None?
  {
    FirstMatch(Keywords, LowerString(text))
  }

  /** Both directions: the answer is `w` exactly when `w` is the earliest keyword occurring in the lowered text. */
  lemma {:induction false} ExtractProjectTypeCharacterised(text: string, w: string)
    ensures ExtractProjectType(text) == Some(w) <==>
            exists j :: 0 <= j < |Keywords| && Keywords[j] == w && IsSubstring(w, LowerString(text)) &&
                        forall i :: 0 <= i < j ==> !IsSubstring(Keywords[i], LowerString(text))
  {
    if j :| 0 <= j < |Keywords| && Keywords[j] == w && IsSubstring(w, LowerString(text)) &&
            forall i :: 0 <= i < j ==> !IsSubstring(Keywords[i], LowerString(text)) {
      FirstMatchUnique(Keywords, LowerString(text), j);
    }
  }

  /** The answer does not depend on the case of the text. */
  lemma {:induction false} ExtractProjectTypeIgnoresCase(text: string)
    ensures ExtractProjectType(text) == ExtractProjectType(LowerString(text))
  {
    LowerStringIdempotent(text);
  }

  /** The scan follows list order, not position in the text: "production and drilling" gives "drilling". */
  lemma {:induction false} ExtractProjectTypePrefersListOrder(text: string)
    requires text == "production and drilling"
    ensures ExtractProjectType(text) == Some("drilling")
  {
    LowerStringOf(text, "production and drilling");
    assert text == "production and " + "drilling" + "";
    OccursAfterPrefix("production and ", "drilling", "");
    FirstMatchUnique(Keywords, text, 0);
  }

  /** Upper-case keywords are found: "Offshore DRILLING rig" gives "drilling". */
  lemma {:induction false} ExtractProjectTypeUpperCase(text: string)
    requires text == "Offshore DRILLING rig"
    ensures ExtractProjectType(text) == Some("drilling")
  {
    var t := LowerString(text);
    LowerStringOf(text, "offshore drilling rig");
    assert t == "offshore " + "drilling" + " rig";
    OccursAfterPrefix("offshore ", "drilling", " rig");
    FirstMatchUnique(Keywords, t, 0);
  }

  /**
   * Every keyword has a 'd' or a 't' in it, so a lowered text with neither
   * letter names no task.
   */
  lemma {:induction false} NoKeywordWithoutDOrT(t: string)
    requires 'd' !in t && 't' !in t
    ensures forall w :: w in Keywords ==> !IsSubstring(w, t)
  {
    MissingCharNotSubstring(Keywords[0], t, 'd');
    MissingCharNotSubstring(Keywords[1], t, 't');
    MissingCharNotSubstring(Keywords[2], t, 't');
    MissingCharNotSubstring(Keywords[3], t, 'd');
    MissingCharNotSubstring(Keywords[4], t, 't');
  }

  /** Text naming no keyword gives None: "Pipeline survey" has no task keyword. */
  lemma {:induction false} ExtractProjectTypeNone(text: string)
    requires text == "Pipeline survey"
    ensures ExtractProjectType(text) == None
  {
    LowerStringOf(text, "pipeline survey");
    NoKeywordWithoutDOrT(LowerString(text));
  }

  /** Lowering a concrete text, character by character. */
  lemma {:induction false} LowerStringOf(s: string, t: string)
    requires |s| == |t| && forall i :: 0 <= i < |s| ==> Lower(s[i]) == t[i]
    ensures LowerString(s) == t
  {
  }
}
