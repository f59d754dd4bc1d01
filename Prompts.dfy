/** Prompt lookup with fallback keys, as both conversational RAG classes do it
    (src/singledoc_chat/retrieval.py `_resolve_prompt`, src/document_chat/retrieval.py
    `_resolve_prompt`). The registry is any map from keys to prompts. */
module Prompts {
  import opened Wrappers
  import opened PyText

  /** A `PromptType` enum member: its `name`, its `value`, and `str(member)`. */
  datatype PromptType = PromptType(name: string, value: string, display: string)

  /** A registry key: an enum member itself, or a string. */
  datatype Key = Member(member: PromptType) | Str(s: string)

  const PromptMissing := "Required prompt missing from PROMPT_REGISTRY"

  /** The entry of the first key present in the registry, if any. */
  function FirstPresent<V>(registry: map<Key, V>, keys: seq<Key>): (r: Option<V>)
    ensures r.None? <==> forall i :: 0 <= i < |keys| ==> keys[i] !in registry
    ensures r.Some? ==> exists i :: 0 <= i < |keys| && keys[i] in registry && r.value == registry[keys[i]]
                                   && forall j :: 0 <= j < i ==> keys[j] !in registry
  {
    if keys == [] then None
    else if keys[0] in registry then Some(registry[keys[0]])
    else
      var r := FirstPresent(registry, keys[1..]);
      assert forall i :: 0 < i < |keys| ==> keys[i] == keys[1..][i - 1];
      r
  }

  /** The key present earliest in the list decides the result. */
  lemma FirstPresentAt<V>(registry: map<Key, V>, keys: seq<Key>, i: nat)
    requires i < |keys| && keys[i] in registry
    requires forall j :: 0 <= j < i ==> keys[j] !in registry
    ensures FirstPresent(registry, keys) == Some(registry[keys[i]])
  {
    var r := FirstPresent(registry, keys);
    var i' :| 0 <= i' < |keys| && keys[i'] in registry && r.value == registry[keys[i']]
              && forall j :: 0 <= j < i' ==> keys[j] !in registry;
    assert i' == i;
  }

  /** The loop over the candidate keys: the first hit, or an error naming the missing prompt. */
  method Resolve<V>(registry: map<Key, V>, keys: seq<Key>) returns (r: Result<V>)
    ensures FirstPresent(registry, keys).Some? ==> r == Ok(FirstPresent(registry, keys).value)
    ensures FirstPresent(registry, keys).None? ==> r == Err(PromptMissing)
  {
    for i := 0 to |keys|
      invariant forall j :: 0 <= j < i ==> keys[j] !in registry
    {
      if keys[i] in registry {
        FirstPresentAt(registry, keys, i);
        return Ok(registry[keys[i]]);
      }
    }
    return Err(PromptMissing);
  }

  /** src/singledoc_chat/retrieval.py: the member, its name, its value, then `str(member).lower()`. */
  function SingleDocKeys(p: PromptType): (keys: seq<Key>)
    ensures |keys| == 4 && keys[0] == Member(p)
  {
    [Member(p), Str(p.name), Str(p.value), Str(Lower(p.display))]
  }

  /** src/document_chat/retrieval.py: the value, the name, the value lower-cased, then upper-cased. */
  function DocumentChatKeys(p: PromptType): (keys: seq<Key>)
    ensures |keys| == 4 && keys[0] == Str(p.value)
  {
    [Str(p.value), Str(p.name), Str(Lower(p.value)), Str(Upper(p.value))]
  }

  /** For the document chat the value wins over the name, the name over the
      lower-cased value, and the upper-cased value is tried last. */
  lemma DocumentChatFallbacks<V>(registry: map<Key, V>, p: PromptType)
    ensures Str(p.value) in registry ==> FirstPresent(registry, DocumentChatKeys(p)) == Some(registry[Str(p.value)])
    ensures Str(p.value) !in registry && Str(p.name) in registry ==>
              FirstPresent(registry, DocumentChatKeys(p)) == Some(registry[Str(p.name)])
    ensures (Str(p.value) !in registry && Str(p.name) !in registry && Str(Lower(p.value)) !in registry
             && Str(Upper(p.value)) in registry) ==>
              FirstPresent(registry, DocumentChatKeys(p)) == Some(registry[Str(Upper(p.value))])
  {
    var keys := DocumentChatKeys(p);
    if Str(p.value) in registry {
      FirstPresentAt(registry, keys, 0);
    } else if Str(p.name) in registry {
      FirstPresentAt(registry, keys, 1);
    } else if Str(Lower(p.value)) !in registry && Str(Upper(p.value)) in registry {
      FirstPresentAt(registry, keys, 3);
    }
  }

  /** For the single-document chat the member itself wins, and the lower-cased
      `str(member)` is tried last. */
  lemma SingleDocFallbacks<V>(registry: map<Key, V>, p: PromptType)
    ensures Member(p) in registry ==> FirstPresent(registry, SingleDocKeys(p)) == Some(registry[Member(p)])
    ensures (Member(p) !in registry && Str(p.name) !in registry && Str(p.value) !in registry
             && Str(Lower(p.display)) in registry) ==>
              FirstPresent(registry, SingleDocKeys(p)) == Some(registry[Str(Lower(p.display))])
  {
    var keys := SingleDocKeys(p);
    if Member(p) in registry {
      FirstPresentAt(registry, keys, 0);
    } else if Str(p.name) !in registry && Str(p.value) !in registry && Str(Lower(p.display)) in registry {
      FirstPresentAt(registry, keys, 3);
    }
  }
}
