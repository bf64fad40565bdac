/** What the interface composes about a tool call, and on which inputs composing it raises.
    The loop composes these texts outside of any try, between storing the calls of a response
    and storing their results. */
module Display {
  import opened Prelude

  /** The input of a call, as parsed from the model's answer; it need not be an object. */
  datatype Json =
    | JNull
    | JBool(flag: bool)
    | JNumber(number: real)
    | JText(text: string)
    | JList(items: seq<Json>)
    | JObject(fields: map<string, Json>)

  /** The value under a name; None is `undefined`. */
  function Field(input: Json, name: string): Option<Json> {
    if input.JObject? && name in input.fields then Some(input.fields[name]) else None
  }

  predicate Missing(v: Option<Json>) {
    v.None? || v.value.JNull?
  }

  predicate Falsy(v: Option<Json>) {
    Missing(v) || v.value in {JBool(false), JNumber(0.0), JText("")}
  }

  /** The value can become part of a text: an object can unless it hides the inherited
      conversion, a list if its items can. */
  predicate Converts(v: Json) {
    match v
    case JList(items) => forall x | x in items :: Converts(x)
    case JObject(fields) => "toString" !in fields
    case _ => true
  }

  predicate Prints(v: Option<Json>) {
    v.Some? ==> Converts(v.value)
  }

  /** Comparing the value with a positive bound gives true; numberOf says which number a text
      or a list is compared as. */
  predicate AtMost(v: Json, max: nat, numberOf: Json -> Option<real>) {
    match v
    case JNull => true
    case JBool(_) => true
    case JNumber(n) => n <= max as real
    case JObject(_) => false
    case _ => numberOf(v).Some? && numberOf(v).value <= max as real
  }

  /** Cutting the value to max characters does not raise: it is a text, or has a length that
      is not above max. */
  predicate Truncates(v: Option<Json>, max: nat, numberOf: Json -> Option<real>) {
    v.Some? &&
    match v.value
    case JText(_) => true
    case JList(items) => |items| <= max
    case JObject(fields) => "length" in fields && AtMost(fields["length"], max, numberOf)
    case _ => false
  }

  /** Splitting the value into lines does not raise. */
  predicate Splits(v: Option<Json>) {
    Missing(v) || v.value.JText?
  }

  /** The spinner of a single call can be composed. */
  predicate Spins(name: string, input: Json, numberOf: Json -> Option<real>) {
    if name == "bash" then
      var command := Field(input, "command");
      Falsy(command) || (Truncates(command, 50, numberOf) && Prints(command))
    else if name in {"read", "write", "edit"} then Prints(Field(input, "file_path"))
    else if name in {"glob", "grep"} then Prints(Field(input, "pattern"))
    else true
  }

  /** The question whether a call may be executed can be composed. */
  predicate Confirms(name: string, input: Json) {
    name in {"write", "edit"} ==> Prints(Field(input, "file_path"))
  }

  /** The call is answered by a text: the two names stand for functions every table of
      handlers inherits and that may answer with something else. */
  predicate AnsweredByText(name: string, input: Json) {
    && (name == "constructor" ==> input.JText? && input.text != "")
    && (name == "isPrototypeOf" ==> Falsy(Some(input)) || input.JObject? || input.JList?)
  }

  /** An executed call can be shown. */
  predicate Shows(name: string, input: Json, numberOf: Json -> Option<real>) {
    if name == "bash" then Truncates(Field(input, "command"), 60, numberOf)
    else if name == "read" then
      Missing(Field(input, "offset")) || (Prints(Field(input, "offset")) && Prints(Field(input, "limit")))
    else if name == "write" then Splits(Field(input, "content"))
    else if name == "edit" then Splits(Field(input, "old_string")) && Splits(Field(input, "new_string"))
    else AnsweredByText(name, input)
  }

  /** The field is a text, or missing. */
  predicate TextOrNone(input: Json, name: string) {
    Field(input, name).Some? ==> Field(input, name).value.JText?
  }

  /** The input has the types the tool definitions ask for; a command is not missing. */
  predicate WellTyped(name: string, input: Json) {
    && input.JObject?
    && (name == "bash" ==> "command" in input.fields)
    && (forall f | f in {"command", "file_path", "pattern", "content", "old_string", "new_string"} :: TextOrNone(input, f))
    && (forall f | f in {"offset", "limit"} :: Field(input, f).Some? ==> Field(input, f).value.JNumber?)
    && name != "constructor"
  }

  /** A well-typed call can always be shown; a bash call exactly if its command is a text, or
      a list or an object that passes for a short one. */
  lemma WellTypedShows(name: string, input: Json, numberOf: Json -> Option<real>)
    ensures WellTyped(name, input) ==>
              Spins(name, input, numberOf) && Confirms(name, input) && Shows(name, input, numberOf)
    ensures name == "bash" && Missing(Field(input, "command")) ==>
              Spins(name, input, numberOf) && Confirms(name, input) && !Shows(name, input, numberOf)
    ensures name == "write" && !Splits(Field(input, "content")) ==> !Shows(name, input, numberOf)
  {
    if WellTyped(name, input) {
      assert TextOrNone(input, "command") && TextOrNone(input, "file_path") && TextOrNone(input, "pattern");
      assert TextOrNone(input, "content") && TextOrNone(input, "old_string") && TextOrNone(input, "new_string");
      assert "offset" in {"offset", "limit"} && "limit" in {"offset", "limit"};
      assert AnsweredByText(name, input);
    }
  }

  /** The value is present and of another kind than text or null. */
  predicate OddKind(v: Option<Json>) {
    v.Some? && !v.value.JNull? && !v.value.JText?
  }

  /** On which inputs showing an executed call raises, tool by tool. */
  lemma RaisesExactly(name: string, input: Json, numberOf: Json -> Option<real>)
    ensures var raises := !Shows(name, input, numberOf);
            && (name == "bash" ==>
                  var command := Field(input, "command");
                  && (command.None? || command.value.JNull? || command.value.JBool? || command.value.JNumber? ==> raises)
                  && (command.Some? && command.value.JText? ==> !raises)
                  && (command.Some? && command.value.JList? ==> (raises <==> |command.value.items| > 60))
                  && (command.Some? && command.value.JObject? ==>
                        var length := Field(command.value, "length");
                        && (length.None? || length.value.JObject? ==> raises)
                        && (length.Some? && length.value.JNumber? ==> (raises <==> length.value.number > 60.0))
                        && (length.Some? && (length.value.JText? || length.value.JList?) ==>
                              (raises <==> numberOf(length.value).None? || numberOf(length.value).value > 60.0))
                        && (length.Some? && (length.value.JNull? || length.value.JBool?) ==> !raises)))
            && (name == "write" ==> (raises <==> OddKind(Field(input, "content"))))
            && (name == "edit" ==> (raises <==> OddKind(Field(input, "old_string")) || OddKind(Field(input, "new_string"))))
            && (name == "read" ==>
                  (raises <==> Field(input, "offset").Some? && !Field(input, "offset").value.JNull? &&
                               (Unprintable(Field(input, "offset")) || Unprintable(Field(input, "limit")))))
            && (name == "constructor" ==> (raises <==> !(input.JText? && |input.text| > 0)))
            && (name == "isPrototypeOf" ==>
                  (raises <==> (input.JBool? && input.flag) || (input.JNumber? && input.number != 0.0) || (input.JText? && |input.text| > 0)))
            && (name in {"glob", "grep", "agent", "ask_user", "memory_search", "memory_store", "memory_facts"} ==> !raises)
  {
  }

  /** The value is present and cannot become part of a text: an object with a member of its own
      called toString, or a list with such an item, at any depth. */
  predicate Unprintable(v: Option<Json>) {
    v.Some? && !Converts(v.value)
  }

  lemma ConvertsExactly(v: Json)
    ensures v.JNull? || v.JBool? || v.JNumber? || v.JText? ==> Converts(v)
    ensures v.JObject? ==> (Converts(v) <==> "toString" !in v.fields)
    ensures v.JList? ==> (Converts(v) <==> forall x | x in v.items :: Converts(x))
  {
  }

  /** On which inputs composing the spinner or the question raises. */
  lemma SpinnerRaisesExactly(name: string, input: Json, numberOf: Json -> Option<real>)
    ensures name in {"read", "write", "edit"} ==> (Spins(name, input, numberOf) <==> !Unprintable(Field(input, "file_path")))
    ensures name in {"glob", "grep"} ==> (Spins(name, input, numberOf) <==> !Unprintable(Field(input, "pattern")))
    ensures name == "bash" ==>
              var command := Field(input, "command");
              && (command.None? || command.value.JNull? || command.value.JText? ==> Spins(name, input, numberOf))
              && (command.Some? && command.value.JBool? ==> (Spins(name, input, numberOf) <==> !command.value.flag))
              && (command.Some? && command.value.JNumber? ==> (Spins(name, input, numberOf) <==> command.value.number == 0.0))
              && (command.Some? && command.value.JList? ==>
                    (Spins(name, input, numberOf) <==> |command.value.items| <= 50 && Converts(command.value)))
    ensures name in {"write", "edit"} ==> (Confirms(name, input) <==> !Unprintable(Field(input, "file_path")))
    ensures name !in {"write", "edit"} ==> Confirms(name, input)
  {
  }
}
