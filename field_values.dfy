/** Validation of the raw values a client sends for a task field, and the
    matching of raw values against a field's selections (radio, dropdown and
    checkbox options). A validator turns a raw value into the pair
    (value, markdown value) that the field stores, or rejects it with one of
    the service's error messages together with the field's api_name. */
module FieldValues {
  import opened Common
  import opened Decimal

  /** A dynamically typed value as decoded from a JSON request body. */
  datatype Raw =
    | Null
    | Str(s: string)
    | Int(i: int)
    | Bool(b: bool)
    | List(items: seq<Raw>)

  /** The error messages a validator can raise. */
  datatype Message =
    | MsgPw0028  // radio/dropdown value names no selection
    | MsgPw0029  // checkbox value is not a list
    | MsgPw0030  // checkbox list item names no selection
    | MsgPw0032  // date value is not a timestamp
    | MsgPw0034  // url value is not a string
    | MsgPw0035  // url value is not an http(s) url

  /** The service's field exception: a message and the api_name of the field. */
  datatype FieldError = FieldError(message: Message, apiName: string)

  /** A selection a field offers: its database id, api_name and display value. */
  datatype Choice = Choice(id: nat, apiName: string, value: string)

  /** A key names a selection when it is the selection's id written in decimal
      or the selection's api_name. */
  predicate KeyNames(key: string, id: nat, apiName: string) {
    key == NatToString(id) || key == apiName
  }

  predicate Matches(key: string, c: Choice) {
    KeyNames(key, c.id, c.apiName)
  }

  /** The index of the first selection that `key` names, if any. */
  function FindChoice(key: string, choices: seq<Choice>): (r: Option<nat>)
    ensures r.Some? ==> r.value < |choices| && Matches(key, choices[r.value])
    ensures r.Some? ==> forall j :: 0 <= j < r.value ==> !Matches(key, choices[j])
    ensures r.None? ==> forall j :: 0 <= j < |choices| ==> !Matches(key, choices[j])
  {
    if |choices| == 0 then None
    else if Matches(key, choices[0]) then Some(0)
    else match FindChoice(key, choices[1..])
      case None => None
      case Some(i) => Some(i + 1)
  }

  /** Radio and dropdown fields: the raw value must be a string naming one of
      the selections; the field then holds that selection's value, both as
      value and as markdown. Anything else raises MSG_PW_0028. */
  function RadioValue(raw: Raw, choices: seq<Choice>, apiName: string): (r: Result<(string, string), FieldError>)
    ensures r.Ok? <==> raw.Str? && exists i :: 0 <= i < |choices| && Matches(raw.s, choices[i])
    ensures r.Ok? ==> exists i :: 0 <= i < |choices| && Matches(raw.s, choices[i]) &&
                                  r.value == (choices[i].value, choices[i].value)
    ensures r.Err? ==> r.error == FieldError(MsgPw0028, apiName)
  {
    if !raw.Str? then Err(FieldError(MsgPw0028, apiName))
    else match FindChoice(raw.s, choices)
      case None => Err(FieldError(MsgPw0028, apiName))
      case Some(i) => Ok((choices[i].value, choices[i].value))
  }

  /** A checkbox list item is acceptable when it is a string naming a selection. */
  predicate ItemMatches(item: Raw, choices: seq<Choice>) {
    item.Str? && exists i :: 0 <= i < |choices| && Matches(item.s, choices[i])
  }

  predicate AllItemsMatch(items: seq<Raw>, choices: seq<Choice>) {
    forall k :: 0 <= k < |items| ==> ItemMatches(items[k], choices)
  }

  /** The values of the selections the items name, in the order of the items. */
  ghost function MatchedValues(items: seq<Raw>, choices: seq<Choice>): seq<string>
    requires AllItemsMatch(items, choices)
  {
    seq(|items|, k requires 0 <= k < |items| && ItemMatches(items[k], choices) =>
      choices[FindChoice(items[k].s, choices).value].value)
  }

  /** Walks the checkbox list, stopping at the first item that names nothing. */
  function CollectValues(items: seq<Raw>, choices: seq<Choice>): (r: Option<seq<string>>)
    ensures r.Some? <==> AllItemsMatch(items, choices)
    ensures r.Some? ==> r.value == MatchedValues(items, choices)
  {
    if |items| == 0 then Some([])
    else if !items[0].Str? then None
    else match FindChoice(items[0].s, choices)
      case None => None
      case Some(i) =>
        match CollectValues(items[1..], choices)
        case None =>
          assert !ItemMatches(items[1..][0], choices) || !AllItemsMatch(items[1..], choices);
          None
        case Some(rest) =>
          assert forall k :: 1 <= k < |items| ==> items[k] == items[1..][k - 1];
          Some([choices[i].value] + rest)
  }

  /** The parts separated by `sep`, as Python's `sep.join(parts)`. */
  function Join(parts: seq<string>, sep: string): string {
    if |parts| == 0 then ""
    else if |parts| == 1 then parts[0]
    else parts[0] + sep + Join(parts[1..], sep)
  }

  /** Joining keeps the order of the parts: joining two non-empty lists one
      after the other is joining each and putting one separator between. */
  lemma {:induction false} JoinConcat(a: seq<string>, b: seq<string>, sep: string)
    requires |a| > 0 && |b| > 0
    ensures Join(a + b, sep) == Join(a, sep) + sep + Join(b, sep)
  {
    if |a| == 1 {
      assert (a + b)[1..] == b;
    } else {
      assert (a + b)[1..] == a[1..] + b;
      JoinConcat(a[1..], b, sep);
    }
  }

  /** Checkbox fields: the raw value must be a list (else MSG_PW_0029) whose
      every item is a string naming a selection (else MSG_PW_0030); the field
      then holds the named values joined by ", ", as value and as markdown. */
  function CheckboxValue(raw: Raw, choices: seq<Choice>, apiName: string): (r: Result<(string, string), FieldError>)
    ensures !raw.List? <==> r == Err(FieldError(MsgPw0029, apiName))
    ensures raw.List? ==> (r.Ok? <==> AllItemsMatch(raw.items, choices))
    ensures raw.List? && r.Err? ==> r.error == FieldError(MsgPw0030, apiName)
    ensures r.Ok? ==> r.value.0 == r.value.1 == Join(MatchedValues(raw.items, choices), ", ")
  {
    if !raw.List? then Err(FieldError(MsgPw0029, apiName))
    else match CollectValues(raw.items, choices)
      case None => Err(FieldError(MsgPw0030, apiName))
      case Some(values) =>
        var joined := Join(values, ", ");
        Ok((joined, joined))
  }

  /** The checked values of two options listed by id come out in list order,
      separated by ", ". */
  lemma CheckboxTwoIds()
    ensures CheckboxValue(List([Str("1"), Str("2")]),
                          [Choice(1, "first-api-name", "first option"), Choice(2, "second-api-name", "second option")],
                          "api-name-1")
            == Ok(("first option, second option", "first option, second option"))
  {
    var choices := [Choice(1, "first-api-name", "first option"), Choice(2, "second-api-name", "second option")];
    assert NatToString(1) == "1" && NatToString(2) == "2";
    assert FindChoice("1", choices) == Some(0);
    assert FindChoice("2", choices[1..]) == Some(0);
    assert FindChoice("2", choices) == Some(1);
    var items: seq<Raw> := [Str("1"), Str("2")];
    assert ItemMatches(items[0], choices) && ItemMatches(items[1], choices);
    var values := MatchedValues(items, choices);
    assert values[0] == "first option" && values[1] == "second option";
    assert values == ["first option", "second option"];
    assert Join(["first option", "second option"], ", ") == "first option, second option";
  }

  /** The markdown link `[text](url)`. */
  function MarkdownLink(text: string, url: string): string {
    "[" + text + "](" + url + ")"
  }

  /** The position of the first occurrence of `c` in `s`. */
  function FirstIndexOf(c: char, s: string): (r: Option<nat>)
    ensures r.Some? ==> r.value < |s| && s[r.value] == c && c !in s[..r.value]
    ensures r.None? ==> c !in s
  {
    if |s| == 0 then None
    else if s[0] == c then Some(0)
    else match FirstIndexOf(c, s[1..])
      case None => None
      case Some(i) =>
        assert s[..i + 1] == [s[0]] + s[1..][..i];
        Some(i + 1)
  }

  /** Reads the text and the target back out of a markdown link. */
  function LinkParts(md: string): Option<(string, string)> {
    if |md| < 4 || md[0] != '[' || md[|md| - 1] != ')' then None
    else match FirstIndexOf(']', md[1..])
      case None => None
      case Some(k) =>
        if k + 2 < |md| && md[k + 2] == '(' then Some((md[1..k + 1], md[k + 3..|md| - 1]))
        else None
  }

  lemma {:induction false} FirstIndexOfAfter(c: char, a: string, b: string)
    requires c !in a
    ensures FirstIndexOf(c, a + [c] + b) == Some(|a|)
  {
    if |a| > 0 {
      assert (a + [c] + b)[1..] == a[1..] + [c] + b;
      FirstIndexOfAfter(c, a[1..], b);
    }
  }

  /** The markdown of a url field can be read back: when the field's name has
      no closing bracket, the link gives back both the name and the url. */
  lemma MarkdownLinkRoundTrip(text: string, url: string)
    requires ']' !in text
    ensures LinkParts(MarkdownLink(text, url)) == Some((text, url))
  {
    var md := MarkdownLink(text, url);
    assert md[1..] == text + [']'] + ("(" + url + ")");
    FirstIndexOfAfter(']', text, "(" + url + ")");
    assert md[1..|text| + 1] == text;
    assert md[|text| + 3..|md| - 1] == url;
  }

  predicate HasPrefix(s: string, prefix: string) {
    |prefix| <= |s| && s[..|prefix|] == prefix
  }

  /** The url starts with one of the two accepted schemes. */
  predicate HasWebScheme(s: string) {
    HasPrefix(s, "http://") || HasPrefix(s, "https://")
  }

  /** What follows the scheme: the host and the rest of the url. */
  function AfterScheme(s: string): string
    requires HasWebScheme(s)
  {
    if HasPrefix(s, "http://") then s[7..] else s[8..]
  }

  /** Url fields: a non-string raises MSG_PW_0034; a string that is not an
      http(s) url with a host `hostOk` accepts raises MSG_PW_0035; otherwise
      the value is kept and the markdown is a link titled with the field name. */
  function UrlValue(raw: Raw, fieldName: string, apiName: string, hostOk: string -> bool): (r: Result<(string, string), FieldError>)
    ensures !raw.Str? <==> r == Err(FieldError(MsgPw0034, apiName))
    ensures raw.Str? ==> (r.Ok? <==> HasWebScheme(raw.s) && hostOk(AfterScheme(raw.s)))
    ensures raw.Str? && r.Err? ==> r.error == FieldError(MsgPw0035, apiName)
    ensures r.Ok? ==> r.value == (raw.s, MarkdownLink(fieldName, raw.s))
  {
    if !raw.Str? then Err(FieldError(MsgPw0034, apiName))
    else if HasWebScheme(raw.s) && hostOk(AfterScheme(raw.s)) then
      Ok((raw.s, MarkdownLink(fieldName, raw.s)))
    else Err(FieldError(MsgPw0035, apiName))
  }

  /** Other schemes and relative paths are refused whatever the host check says. */
  lemma UrlRejectsOtherSchemes(hostOk: string -> bool)
    ensures UrlValue(Str("ssh://my.pneumatic.app"), "URL field", "api-name-1", hostOk)
            == Err(FieldError(MsgPw0035, "api-name-1"))
    ensures UrlValue(Str("relative/path"), "URL field", "api-name-1", hostOk)
            == Err(FieldError(MsgPw0035, "api-name-1"))
  {
    var ssh, rel := "ssh://my.pneumatic.app", "relative/path";
    assert ssh[..7][1] == 's' && ssh[..8][1] == 's';
    assert rel[..7][0] == 'r' && rel[..8][0] == 'r';
  }

  /** Date fields: a timestamp arrives as a number; any string (numeric-looking
      or blank) raises MSG_PW_0032. A number is kept as its decimal text with
      a human-readable rendering that `format` stands for. */
  function DateValue(raw: Raw, apiName: string, format: int -> string): (r: Result<(string, string), FieldError>)
    ensures r.Ok? <==> raw.Int?
    ensures r.Err? ==> r.error == FieldError(MsgPw0032, apiName)
    ensures r.Ok? ==> r.value.0 == IntToString(raw.i) && r.value.1 == format(raw.i)
  {
    match raw
    case Int(i) => Ok((IntToString(i), format(i)))
    case _ => Err(FieldError(MsgPw0032, apiName))
  }

  /** Whether the raw value marks the selection with this id and api_name as
      selected: a string names it, or a list has an item that names it. */
  predicate IsSelected(raw: Raw, id: nat, apiName: string) {
    match raw
    case Str(s) => KeyNames(s, id, apiName)
    case List(items) => exists k :: 0 <= k < |items| && items[k].Str? && KeyNames(items[k].s, id, apiName)
    case _ => false
  }

  /** A raw value the radio validator accepts marks as selected exactly the
      selections it names, and the value it stores is the first one's. */
  lemma RadioAgreesWithSelection(raw: Raw, choices: seq<Choice>, apiName: string)
    requires RadioValue(raw, choices, apiName).Ok?
    ensures FindChoice(raw.s, choices).Some?
    ensures var i := FindChoice(raw.s, choices).value;
            IsSelected(raw, choices[i].id, choices[i].apiName) &&
            RadioValue(raw, choices, apiName).value == (choices[i].value, choices[i].value)
    ensures forall j :: 0 <= j < |choices| ==>
              (IsSelected(raw, choices[j].id, choices[j].apiName) <==> Matches(raw.s, choices[j]))
  {
  }

  /** Each item of an accepted checkbox list marks the selection it names as
      selected, and that selection's value is the one stored for the item. */
  lemma CheckboxItemSelects(raw: Raw, choices: seq<Choice>, apiName: string, k: nat)
    requires CheckboxValue(raw, choices, apiName).Ok?
    requires k < |raw.items|
    ensures FindChoice(raw.items[k].s, choices).Some?
    ensures var i := FindChoice(raw.items[k].s, choices).value;
            IsSelected(raw, choices[i].id, choices[i].apiName) &&
            MatchedValues(raw.items, choices)[k] == choices[i].value
  {
    assert ItemMatches(raw.items[k], choices);
  }

  /** An accepted checkbox list marks as selected nothing that no item names. */
  lemma CheckboxSelectsOnlyNamed(raw: Raw, choices: seq<Choice>, apiName: string, j: nat)
    requires CheckboxValue(raw, choices, apiName).Ok?
    requires j < |choices| && IsSelected(raw, choices[j].id, choices[j].apiName)
    ensures exists k :: 0 <= k < |raw.items| && Matches(raw.items[k].s, choices[j])
  {
  }

  /** A missing value (None) selects nothing. */
  lemma NullSelectsNothing(id: nat, apiName: string)
    ensures !IsSelected(Null, id, apiName)
  {
  }
}
