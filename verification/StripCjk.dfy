/** Dropping the Chinese category characters the ERP embeds in a specification. */
module StripCjk {
  import opened Option

  /** CJK punctuation, Extension A, the unified ideographs and the compatibility block. */
  predicate IsCjk(c: char) {
    '\U{3000}' <= c <= '\U{303F}' || '\U{3400}' <= c <= '\U{4DBF}' || '\U{4E00}' <= c <= '\U{9FFF}' || '\U{F900}' <= c <= '\U{FAFF}'
  }

  /** White space, as a JavaScript pattern's `\s` and `trim` read it. */
  predicate IsSpace(c: char) {
    '\U{0009}' <= c <= '\U{000D}' || c == ' ' || c == '\U{00A0}' || c == '\U{1680}' || '\U{2000}' <= c <= '\U{200A}' ||
    c == '\U{2028}' || c == '\U{2029}' || c == '\U{202F}' || c == '\U{205F}' || c == '\U{3000}' || c == '\U{FEFF}'
  }

  function WithoutCjk(s: string): string {
    if s == [] then [] else (if IsCjk(s[0]) then [] else [s[0]]) + WithoutCjk(s[1..])
  }

  /** How many white space characters the text starts with. */
  function Leading(s: string): (n: nat)
    ensures n <= |s|
  {
    if s != [] && IsSpace(s[0]) then 1 + Leading(s[1..]) else 0
  }

  /** Each run of two or more white space characters becomes one blank. */
  function Collapse(s: string): string
    decreases |s|
  {
    if s == [] then []
    else
      var n := Leading(s);
      if n >= 2 then " " + Collapse(s[n..]) else [s[0]] + Collapse(s[1..])
  }

  function TrimEnd(s: string): string
    decreases |s|
  {
    if s != [] && IsSpace(s[|s| - 1]) then TrimEnd(s[..|s| - 1]) else s
  }

  function Trim(s: string): string {
    TrimEnd(s[Leading(s)..])
  }

  function Strip(value: Option<string>): Option<string> {
    if value.None? then None
    else
      var stripped := Trim(Collapse(WithoutCjk(value.value)));
      if stripped == "" then None else Some(stripped)
  }

  // ---------------------------------------------------------------- what is left, and what is lost

  /** The two character classes, by number. */
  lemma ClassesByNumber(c: char)
    ensures IsCjk(c) <==>
            var n := c as int;
            0x3000 <= n < 0x3040 || 0x3400 <= n < 0x4DC0 || 0x4E00 <= n < 0xA000 || 0xF900 <= n < 0xFB00
    ensures IsSpace(c) <==>
            var n := c as int;
            9 <= n < 14 || n in {0x20, 0xA0, 0x1680, 0x2028, 0x2029, 0x202F, 0x205F, 0x3000, 0xFEFF} || 0x2000 <= n < 0x200B
  {
  }

  ghost predicate NoCjk(s: string) {
    forall i :: 0 <= i < |s| ==> !IsCjk(s[i])
  }

  ghost predicate NoSpaceRuns(s: string) {
    forall i :: 0 < i < |s| ==> !(IsSpace(s[i - 1]) && IsSpace(s[i]))
  }

  predicate Bare(s: string) {
    s != [] && !IsSpace(s[0]) && !IsSpace(s[|s| - 1])
  }

  /** The characters a reader sees. */
  function Visible(s: string): string {
    if s == [] then [] else (if IsSpace(s[0]) then [] else [s[0]]) + Visible(s[1..])
  }

  lemma {:induction false} WithoutCjkHasNone(s: string)
    ensures NoCjk(WithoutCjk(s))
  {
    if s != [] {
      WithoutCjkHasNone(s[1..]);
    }
  }

  lemma {:induction false} WithoutCjkKeeps(s: string)
    requires NoCjk(s)
    ensures WithoutCjk(s) == s
  {
    if s != [] {
      WithoutCjkKeeps(s[1..]);
    }
  }

  lemma {:induction false} LeadingAreSpaces(s: string)
    ensures var n := Leading(s);
            (forall i :: 0 <= i < n ==> IsSpace(s[i])) && (n < |s| ==> !IsSpace(s[n])) && Visible(s[n..]) == Visible(s)
  {
    if s != [] && IsSpace(s[0]) {
      LeadingAreSpaces(s[1..]);
      assert s[1..][Leading(s[1..])..] == s[Leading(s)..];
    } else {
      assert s[0..] == s;
    }
  }

  /** Collapsing leaves no run, starts with white space only where the text does, and hides nothing. */
  lemma {:induction false} CollapseIsClean(s: string)
    requires NoCjk(s)
    ensures var t := Collapse(s);
            NoCjk(t) && NoSpaceRuns(t) && Visible(t) == Visible(s) && (t != [] ==> s != [] && (IsSpace(t[0]) <==> IsSpace(s[0])))
    decreases |s|
  {
    if s != [] {
      var n := Leading(s);
      LeadingAreSpaces(s);
      if n >= 2 {
        CollapseIsClean(s[n..]);
        assert (" " + Collapse(s[n..]))[1..] == Collapse(s[n..]);
      } else {
        CollapseIsClean(s[1..]);
        assert ([s[0]] + Collapse(s[1..]))[1..] == Collapse(s[1..]);
        assert n == 1 && |s| > 1 ==> !IsSpace(s[1]);
      }
    }
  }

  lemma {:induction false} CollapseKeeps(s: string)
    requires NoSpaceRuns(s)
    ensures Collapse(s) == s
  {
    if s != [] {
      CollapseKeeps(s[1..]);
      LeadingAreSpaces(s);
      assert |s| > 1 ==> !(IsSpace(s[1 - 1]) && IsSpace(s[1]));
    }
  }

  lemma {:induction false} VisibleAppend(s: string, t: string)
    ensures Visible(s + t) == Visible(s) + Visible(t)
  {
    if s == [] {
      assert s + t == t;
    } else {
      assert (s + t)[1..] == s[1..] + t;
      VisibleAppend(s[1..], t);
    }
  }

  lemma {:induction false} TrimEndIsPrefix(s: string)
    ensures var t := TrimEnd(s);
            t <= s && Visible(t) == Visible(s) && (t != [] ==> !IsSpace(t[|t| - 1]))
    decreases |s|
  {
    if s != [] && IsSpace(s[|s| - 1]) {
      var init := s[..|s| - 1];
      assert s == init + [s[|s| - 1]];
      VisibleAppend(init, [s[|s| - 1]]);
      TrimEndIsPrefix(init);
    }
  }

  lemma TrimIsBare(s: string)
    requires NoCjk(s) && NoSpaceRuns(s)
    ensures var t := Trim(s);
            NoCjk(t) && NoSpaceRuns(t) && Visible(t) == Visible(s) && (t == [] || Bare(t))
  {
    LeadingAreSpaces(s);
    TrimEndIsPrefix(s[Leading(s)..]);
  }

  /**
   * What is shown of a specification: no Chinese character, no run of blanks and
   * none at the ends, and every other visible character, in its order.
   */
  lemma StripKeepsTheRest(value: string)
    ensures var r, rest := Strip(Some(value)), Visible(WithoutCjk(value));
            if r.None? then rest == []
            else NoCjk(r.value) && NoSpaceRuns(r.value) && Bare(r.value) && Visible(r.value) == rest
  {
    var s := WithoutCjk(value);
    WithoutCjkHasNone(value);
    CollapseIsClean(s);
    TrimIsBare(Collapse(s));
  }

  lemma {:induction false} BareIsVisible(s: string)
    requires Bare(s)
    ensures Visible(s) != [] && Leading(s) == 0 && TrimEnd(s) == s && Trim(s) == s
  {
  }

  /** Nothing is shown exactly where nothing visible is left. */
  lemma StripIsNoneIff(value: string)
    ensures Strip(Some(value)).None? <==> Visible(WithoutCjk(value)) == []
  {
    StripKeepsTheRest(value);
    if Strip(Some(value)).Some? {
      BareIsVisible(Strip(Some(value)).value);
    }
  }

  /** Stripping what was stripped changes nothing. */
  lemma StripIsIdempotent(value: Option<string>)
    ensures Strip(Strip(value)) == Strip(value)
  {
    if value.Some? && Strip(value).Some? {
      var r := Strip(value).value;
      StripKeepsTheRest(value.value);
      WithoutCjkKeeps(r);
      CollapseKeeps(r);
      BareIsVisible(r);
    }
  }
}
