/**
 * The GlobalFilter form: a field select, a text box or two date inputs,
 * and Apply/Reset buttons. Its four inputs are state that the change
 * handlers and Reset update; date mode and the Apply payload are derived.
 */
module GlobalFilter {
  import opened Wrappers

  /** One entry of the field select (`caption` is its label); `isDate` stands for the optional flag (absent is false). */
  datatype FilterOption = FilterOption(caption: string, value: string, isDate: bool)

  /**
   * The object handed to onApply: `{field, value}` in text mode,
   * `{field, startDate, endDate}` in date mode; absent keys are None.
   */
  datatype Payload = Payload(field: string, value: Option<string>, startDate: Option<string>, endDate: Option<string>)

  /** `options.find(opt => opt.value === field)`: the first option whose value is `field`. */
  function FindOption(options: seq<FilterOption>, field: string): (r: Option<FilterOption>)
    ensures r.None? <==> forall j :: 0 <= j < |options| ==> options[j].value != field
    ensures r.Some? ==> exists i :: 0 <= i < |options| && options[i] == r.value && FirstWithValue(options, field, i)
  {
    if options == [] then None
    else if options[0].value == field then
      assert FirstWithValue(options, field, 0);
      Some(options[0])
    else
      var r := FindOption(options[1..], field);
      assert r.Some? ==> exists i :: 0 <= i < |options| && options[i] == r.value && FirstWithValue(options, field, i) by {
        if r.Some? {
          var i :| 0 <= i < |options[1..]| && options[1..][i] == r.value && FirstWithValue(options[1..], field, i);
          assert FirstWithValue(options, field, i + 1);
        }
      }
      assert forall j :: 1 <= j < |options| ==> options[j] == options[1..][j - 1];
      r
  }

  /** Option `i` is the first one whose value is `field`. */
  ghost predicate FirstWithValue(options: seq<FilterOption>, field: string, i: int) {
    0 <= i < |options| && options[i].value == field && forall j :: 0 <= j < i ==> options[j].value != field
  }

  /** `isDateFilter`: the selected option exists and carries the date flag. */
  predicate IsDateMode(options: seq<FilterOption>, field: string) {
    var o := FindOption(options, field);
    o.Some? && o.value.isDate
  }

  /** Date mode holds exactly when the first option with the selected value is a date option. */
  lemma DateModeIffFirstMatchIsDate(options: seq<FilterOption>, field: string)
    ensures IsDateMode(options, field) <==>
              exists i :: FirstWithValue(options, field, i) && options[i].isDate
  {
    var o := FindOption(options, field);
    if o.Some? {
      var i :| 0 <= i < |options| && options[i] == o.value && FirstWithValue(options, field, i);
      assert forall k :: FirstWithValue(options, field, k) ==> k == i;
    }
  }

  /** The characters JavaScript's String.prototype.trim removes: white space and line terminators. */
  predicate IsJsWhitespace(c: char) {
    c == '\t' || c == '\n' || c == '\U{000B}' || c == '\U{000C}' || c == '\r' || c == ' ' ||
    c == '\U{00A0}' || c == '\U{1680}' || ('\U{2000}' <= c <= '\U{200A}') ||
    c == '\U{2028}' || c == '\U{2029}' || c == '\U{202F}' || c == '\U{205F}' ||
    c == '\U{3000}' || c == '\U{FEFF}'
  }

  /** Drops leading white space: a suffix of `s` that is empty or starts with a non-space. */
  function TrimStart(s: string): (r: string)
    ensures |r| <= |s| && r == s[|s| - |r|..]
    ensures r == [] || !IsJsWhitespace(r[0])
    ensures forall i :: 0 <= i < |s| - |r| ==> IsJsWhitespace(s[i])
  {
    if s != [] && IsJsWhitespace(s[0]) then TrimStart(s[1..]) else s
  }

  /** Drops trailing white space: a prefix of `s` that is empty or ends with a non-space. */
  function TrimEnd(s: string): (r: string)
    ensures |r| <= |s| && r == s[..|r|]
    ensures r == [] || !IsJsWhitespace(r[|r| - 1])
    ensures forall i :: |r| <= i < |s| ==> IsJsWhitespace(s[i])
  {
    if s != [] && IsJsWhitespace(s[|s| - 1]) then TrimEnd(s[..|s| - 1]) else s
  }

  /** `s.trim()`. */
  function Trim(s: string): string {
    TrimEnd(TrimStart(s))
  }

  /** Every character of `s` is white space. */
  predicate Blank(s: string) {
    forall k :: 0 <= k < |s| ==> IsJsWhitespace(s[k])
  }

  /** TrimStart drops a run of white space from the front. */
  lemma TrimStartSplit(s: string)
    ensures var pre := s[..|s| - |TrimStart(s)|]; s == pre + TrimStart(s) && Blank(pre)
  {
    var n := |s| - |TrimStart(s)|;
    forall k | 0 <= k < n ensures IsJsWhitespace(s[..n][k]) {
      assert s[..n][k] == s[k];
    }
  }

  /** TrimEnd drops a run of white space from the back. */
  lemma TrimEndSplit(t: string)
    ensures var post := t[|TrimEnd(t)|..]; t == TrimEnd(t) + post && Blank(post)
  {
    var n := |TrimEnd(t)|;
    forall k | 0 <= k < |t| - n ensures IsJsWhitespace(t[n..][k]) {
      assert t[n..][k] == t[n + k];
    }
  }

  /** A prefix `r` of a suffix `t` of `s` sits between the rest of `s` and the rest of `t`. */
  lemma PrefixOfSuffix(s: string, t: string, r: string)
    requires |t| <= |s| && t == s[|s| - |t|..]
    requires |r| <= |t| && r == t[..|r|]
    ensures s == s[..|s| - |t|] + r + t[|r|..]
  {
    assert s == s[..|s| - |t|] + t;
    assert t == r + t[|r|..];
  }

  /** The white space trimming drops in front of and behind the kept text. */
  lemma TrimPieces(s: string) returns (pre: string, post: string)
    ensures s == pre + Trim(s) + post && Blank(pre) && Blank(post)
  {
    var t := TrimStart(s);
    var r := TrimEnd(t);
    TrimStartSplit(s);
    TrimEndSplit(t);
    PrefixOfSuffix(s, t, r);
    pre, post := s[..|s| - |t|], t[|r|..];
  }

  /** Trimming keeps a contiguous middle part of the text and removes only white space around it. */
  lemma TrimIsInfix(s: string)
    ensures exists pre, post :: s == pre + Trim(s) + post && Blank(pre) && Blank(post)
  {
    var pre, post := TrimPieces(s);
  }

  /** The trimmed text neither starts nor ends with white space. */
  lemma TrimEnds(s: string)
    ensures Trim(s) == [] || (!IsJsWhitespace(Trim(s)[0]) && !IsJsWhitespace(Trim(s)[|Trim(s)| - 1]))
  {
    var t := TrimStart(s);
    var r := TrimEnd(t);
    if r != [] {
      assert r[0] == t[0];
    }
  }

  /** Trimming twice is trimming once. */
  lemma TrimIdempotent(s: string)
    ensures Trim(Trim(s)) == Trim(s)
  {
    var r := Trim(s);
    TrimEnds(s);
    assert TrimStart(r) == r;
    assert TrimEnd(r) == r;
  }

  /** The form's state, one field per `useState` of the component. */
  class FilterForm {
    const options: seq<FilterOption>
    var field: string
    var value: string
    var startDate: string
    var endDate: string

    ghost predicate Valid()
      reads this
    {
      |options| > 0
    }

    /** First render: the first option is selected and every input is empty. */
    constructor (options: seq<FilterOption>)
      requires |options| > 0
      ensures Valid() && this.options == options
      ensures field == options[0].value && value == "" && startDate == "" && endDate == ""
    {
      this.options := options;
      field := options[0].value;
      value := "";
      startDate := "";
      endDate := "";
    }

    /** Whether the date inputs, rather than the text box, are shown. */
    predicate IsDateFilter()
      reads this
    {
      IsDateMode(options, field)
    }

    /** Choosing a field in the select changes only the field. */
    method SelectField(f: string)
      modifies this`field
      ensures field == f
    {
      field := f;
    }

    /** Typing in the text box (shown only in text mode) stores the trimmed text. */
    method TypeValue(raw: string)
      requires !IsDateFilter()
      modifies this`value
      ensures value == Trim(raw)
    {
      value := Trim(raw);
    }

    /** Picking a start date (the date inputs are shown only in date mode). */
    method PickStartDate(d: string)
      requires IsDateFilter()
      modifies this`startDate
      ensures startDate == d
    {
      startDate := d;
    }

    /** Picking an end date. */
    method PickEndDate(d: string)
      requires IsDateFilter()
      modifies this`endDate
      ensures endDate == d
    {
      endDate := d;
    }

    /** The Apply button: the payload handed to onApply; the form itself is unchanged. */
    method Apply() returns (p: Payload)
      ensures p.field == field
      ensures IsDateFilter() ==> p.value == None && p.startDate == Some(startDate) && p.endDate == Some(endDate)
      ensures !IsDateFilter() ==> p.value == Some(value) && p.startDate == None && p.endDate == None
    {
      if IsDateFilter() {
        p := Payload(field, None, Some(startDate), Some(endDate));
      } else {
        p := Payload(field, Some(value), None, None);
      }
    }

    /**
     * The Reset button's own state changes: the first option again and
     * every input empty. The button then calls onReset once; the pages'
     * ResetClicked methods make that call.
     */
    method Reset()
      requires Valid()
      modifies this`field, this`value, this`startDate, this`endDate
      ensures Valid()
      ensures field == options[0].value && value == "" && startDate == "" && endDate == ""
    {
      field := options[0].value;
      value := "";
      startDate := "";
      endDate := "";
    }
  }
}
