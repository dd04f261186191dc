/**
 * How the company and point-of-contact views turn a validation error into
 * the `{"errors": {...}}` response: one message per field, with the
 * framework's "required" message rewritten after the field's name.
 */
module ClientErrors {
  import opened Text

  const RequiredDetail := "This field is required."

  /** What a field maps to in `e.detail`: a list of messages, or something else (a nested dict). */
  datatype Detail = Messages(list: seq<string>) | Nested

  /** `isinstance(messages, list) and messages` */
  predicate Reported(d: Detail) {
    d.Messages? && d.list != []
  }

  /** The response text for a field whose first message is `message`. */
  function FieldMessage(field: string, message: string): (r: string)
    ensures Contains(message, RequiredDetail) ==> r == Lower(ReplaceChar(field, '_', ' ')) + " is required"
    ensures !Contains(message, RequiredDetail) ==> r == message
  {
    if Contains(message, RequiredDetail) then Lower(ReplaceChar(field, '_', ' ')) + " is required" else message
  }

  /** `formatted_errors` after the loop has seen `errors` (fields in dict order). */
  function Formatted(errors: seq<(string, Detail)>): map<string, string> {
    if errors == [] then map[]
    else
      var (field, d) := errors[|errors| - 1];
      var before := Formatted(errors[..|errors| - 1]);
      if Reported(d) then before[field := FieldMessage(field, d.list[0])] else before
  }

  /** The formatting loop of the company and POC create/update views. */
  method FormatErrors(errors: seq<(string, Detail)>) returns (formatted: map<string, string>)
    ensures formatted == Formatted(errors)
  {
    formatted := map[];
    for i := 0 to |errors|
      invariant formatted == Formatted(errors[..i])
    {
      assert errors[..i + 1][..i] == errors[..i];
      var (field, messages) := errors[i];
      if Reported(messages) {
        formatted := formatted[field := FieldMessage(field, messages.list[0])];
      }
    }
    assert errors[..|errors|] == errors;
  }

  /** Field names are distinct, as in a dict. */
  predicate DistinctFields(errors: seq<(string, Detail)>) {
    forall i, j :: 0 <= i < j < |errors| ==> errors[i].0 != errors[j].0
  }

  /**
   * The response names exactly the fields that carried a non-empty message
   * list, under their own names, each with the formatted first message.
   */
  lemma {:induction false} FormattedFields(errors: seq<(string, Detail)>)
    requires DistinctFields(errors)
    ensures forall field :: field in Formatted(errors) <==>
              exists i :: 0 <= i < |errors| && errors[i].0 == field && Reported(errors[i].1)
    ensures forall i :: 0 <= i < |errors| && Reported(errors[i].1) ==>
              errors[i].0 in Formatted(errors)
              && Formatted(errors)[errors[i].0] == FieldMessage(errors[i].0, errors[i].1.list[0])
  {
    if errors != [] {
      var n := |errors| - 1;
      var prefix := errors[..n];
      assert DistinctFields(prefix);
      FormattedFields(prefix);
      forall i | 0 <= i < n ensures errors[i] == prefix[i] {
      }
      forall field ensures field in Formatted(errors) <==>
                            exists i :: 0 <= i < |errors| && errors[i].0 == field && Reported(errors[i].1) {
        if field in Formatted(errors) && !(field == errors[n].0 && Reported(errors[n].1)) {
          assert field in Formatted(prefix);
          var i :| 0 <= i < n && prefix[i].0 == field && Reported(prefix[i].1);
          assert errors[i].0 == field;
        }
      }
    }
  }

  /** The rewritten "required" message names the field in words, in lower case. */
  lemma RequiredMessageExample()
    ensures FieldMessage("Poc_Email", RequiredDetail) == "poc email is required"
  {
    assert OccursAt(RequiredDetail, RequiredDetail, 0);
    assert ReplaceChar("Poc_Email", '_', ' ') == "Poc Email";
    assert Lower("Poc Email") == "poc email";
  }

  /**
   * The rewritten "required" message is plain lower-case words: whatever the
   * field's name, it holds no underscore and no upper-case letter.
   */
  lemma RequiredMessageIsLowerWords(field: string, message: string)
    requires Contains(message, RequiredDetail)
    ensures var r := FieldMessage(field, message);
            forall i :: 0 <= i < |r| ==> r[i] != '_' && !IsUpper(r[i])
  {
    var words := Lower(ReplaceChar(field, '_', ' '));
    forall i | 0 <= i < |words| ensures words[i] != '_' && !IsUpper(words[i]) {
      assert ReplaceChar(field, '_', ' ')[i] != '_';
    }
    var r := words + " is required";
    forall i | |words| <= i < |r| ensures r[i] != '_' && !IsUpper(r[i]) {
      assert r[i] == " is required"[i - |words|];
    }
    assert forall i :: 0 <= i < |words| ==> r[i] == words[i];
  }
}
