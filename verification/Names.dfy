/** The names and identifiers that the configuration, the store and the persistent state accept. */
module Names {
  predicate Alphanumeric(c: char) {
    '0' <= c <= '9' || 'a' <= c <= 'z' || 'A' <= c <= 'Z'
  }

  predicate ValidProfileId(id: string) {
    && 1 <= |id| <= 40
    && Alphanumeric(id[0])
    && forall i :: 1 <= i < |id| ==> Alphanumeric(id[i]) || id[i] == '_' || id[i] == '-'
  }

  predicate Control(c: char) { c < ' ' || '\U{7F}' <= c <= '\U{9F}' }

  /** The group that a fallback policy generates for `group`. */
  function AutoName(group: string): string { group + " Auto" }

  /** Not empty, not too long, no control characters. */
  predicate NameWithin(name: string, limit: nat) {
    1 <= |name| <= limit && forall i :: 0 <= i < |name| ==> !Control(name[i])
  }

  // ---- the same, character by character ----

  /** One to forty letters, digits, underscores and hyphens, the first a letter or a digit. */
  ghost predicate WellFormedId(id: string) {
    && 1 <= |id| <= 40
    && (forall c :: c in id ==> 'a' <= c <= 'z' || 'A' <= c <= 'Z' || '0' <= c <= '9' || c == '_' || c == '-')
    && id[0] != '_' && id[0] != '-'
  }

  lemma IdExactly(id: string)
    ensures ValidProfileId(id) <==> WellFormedId(id)
  {
    if WellFormedId(id) {
      assert forall i :: 0 <= i < |id| ==> id[i] in id;
    }
  }

  ghost predicate ProperName(name: string, limit: nat) {
    1 <= |name| <= limit && forall c :: c in name ==> c >= ' ' && !('\U{7F}' <= c <= '\U{9F}')
  }

  lemma NameExactly(name: string, limit: nat)
    ensures NameWithin(name, limit) <==> ProperName(name, limit)
  {
    if ProperName(name, limit) {
      assert forall i :: 0 <= i < |name| ==> name[i] in name;
    }
  }
}
