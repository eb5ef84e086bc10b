/** The variable store: entries, reserved keys, and the grammar of `${var:KEY}` references. */
module Variables {
  import opened Base

  datatype Variable = Variable(key: string, value: string, typ: string, isSecret: bool, group: string,
                               description: string, docs: string, example: string, deprecated: string)

  const TYPE_STRING := "string"

  predicate IsValidType(t: string) {
    t in {TYPE_STRING, "json", "list", "number", "bool"}
  }

  const INTERNAL_PREFIX := "GRIDCTL_"
  const INTERNAL_KEYS := {"GRIDCTL_SSH_KEY_PASSPHRASE", "GRIDCTL_VAULT_PASSPHRASE", "OP_CONNECT_TOKEN",
      "OP_SERVICE_ACCOUNT_TOKEN"}

  /** Keys reserved for the control plane. */
  predicate IsInternal(key: string) {
    INTERNAL_PREFIX <= key || key in INTERNAL_KEYS
  }

  type Entries = map<string, Variable>

  datatype StoreError = EmptyKey | InvalidType | Reserved | NotSaved

  /** Stored variables, as the store object holds them. */
  class Store {
    var entries: Entries

    constructor (entries: Entries)
      ensures this.entries == entries
    {
      this.entries := entries;
    }

    /** `SetVariable`; `saved` is whether the file could be written. */
    method SetVariable(v: Variable, saved: bool) returns (error: Option<StoreError>)
      modifies this
      ensures error == SetError(v, saved)
      ensures entries == if error.None? then old(entries)[v.key := Typed(v)] else old(entries)
    {
      error := SetError(v, saved);
      if error.None? { entries := entries[v.key := Typed(v)]; }
    }
  }

  /** Everything that is stored has a key that is not reserved and one of five types, or none, which means string. */
  lemma SetLaws(v: Variable, saved: bool)
    ensures SetError(v, saved).None? <==>
              && v.key != "" && v.typ in ["", "string", "json", "list", "number", "bool"] && saved
              && !IsInternal(v.key)
    ensures Typed(v) == v.(typ := if v.typ == "" then "string" else v.typ)
  {
  }

  /** The reserved keys spelled out. */
  lemma InternalKeys(key: string)
    ensures IsInternal(key) <==>
              || key == "OP_CONNECT_TOKEN" || key == "OP_SERVICE_ACCOUNT_TOKEN"
              || (|key| >= 8 && key[..8] == "GRIDCTL_")
  {
    assert "GRIDCTL_SSH_KEY_PASSPHRASE"[..8] == "GRIDCTL_" && "GRIDCTL_VAULT_PASSPHRASE"[..8] == "GRIDCTL_";
  }

  function Typed(v: Variable): Variable {
    if v.typ == "" then v.(typ := TYPE_STRING) else v
  }

  function SetError(v: Variable, saved: bool): Option<StoreError> {
    if v.key == "" then Some(EmptyKey)
    else if !IsValidType(Typed(v).typ) then Some(InvalidType)
    else if IsInternal(v.key) then Some(Reserved)
    else if !saved then Some(NotSaved)
    else None
  }

  /***** References *****/

  predicate IsLetter(c: char) { 'a' <= c <= 'z' || 'A' <= c <= 'Z' || c == '_' }

  predicate IsDigit(c: char) { '0' <= c <= '9' }

  predicate IsNameChar(c: char) { IsLetter(c) || IsDigit(c) }

  /** [a-zA-Z_][a-zA-Z0-9_]* */
  predicate IsName(s: string) {
    s != "" && IsLetter(s[0]) && forall i | 0 <= i < |s| :: IsNameChar(s[i])
  }

  /** Letters, digits and underscores, and no digit first. */
  lemma NamesAre(s: string)
    ensures IsName(s) <==>
              && s != "" && !('0' <= s[0] <= '9')
              && forall c <- s :: 'a' <= c <= 'z' || 'A' <= c <= 'Z' || '0' <= c <= '9' || c == '_'
  {
    assert forall i | 0 <= i < |s| :: s[i] in s;
  }

  const OPENING := "${var:"

  function Reference(key: string): string {
    OPENING + key + "}"
  }

  /** The key, when the whole text is a store reference of the expansion grammar. */
  function ReferencedKey(text: string): Option<string> {
    var n := |OPENING|;
    if n < |text| && text[..n] == OPENING && text[|text| - 1] == '}' && IsName(text[n..|text| - 1])
    then Some(text[n..|text| - 1]) else None
  }

  /** What a store reference expands to: the store first, then the environment; reserved keys are denied. */
  function Resolve(text: string, entries: Entries, env: map<string, string>): Option<string> {
    var key := ReferencedKey(text);
    if key.None? || IsInternal(key.value) then None
    else if key.value in entries then Some(entries[key.value].value)
    else if key.value in env then Some(env[key.value])
    else None
  }

  /** A written reference is read back exactly when its key fits the grammar. */
  lemma ReferenceIsRead(key: string)
    ensures Reference(key) == "${var:" + key + "}"
    ensures ReferencedKey(Reference(key)) == if IsName(key) then Some(key) else None
  {
    var text := Reference(key);
    assert text[..|OPENING|] == OPENING && text[|OPENING|..|text| - 1] == key;
  }

  /**
   A stored value is reached through its reference exactly when the key fits the grammar and is not reserved; a key
   that is not stored is looked up in the environment on the same terms.
   */
  lemma ReferenceResolves(key: string, entries: Entries, env: map<string, string>)
    ensures Resolve(Reference(key), entries, env)
            == if !IsName(key) || IsInternal(key) then None
               else if key in entries then Some(entries[key].value)
               else if key in env then Some(env[key]) else None
  {
    ReferenceIsRead(key);
  }
}
