/** Replacing the Vault paths in a task's environment by the secrets they name. */
module EnvDecryption {
  import opened Options
  import opened Text

  const VAULT_PREFIX := "vault://"

  /** Crashed: an entry without "=", where the program indexes past the end. */
  datatype Outcome = Decrypted(env: seq<string>) | LookupFailed | Crashed

  predicate IsVaultPath(value: string): (yes: bool)
    ensures yes <==> exists path :: value == "vault://" + path
  {
    assert VAULT_PREFIX <= value ==> value == "vault://" + value[8..];
    VAULT_PREFIX <= value
  }

  /** The entry can be dealt with: it has a value, and if that is a path Vault has the secret. */
  predicate Readable(lookup: string -> Option<string>, entry: string) {
    '=' in entry && (IsVaultPath(Value(entry)) ==> lookup(Value(entry)).Some?)
  }

  /** `out` is what becomes of `entry`: its name is kept, and so is a value that is no Vault path. */
  predicate Becomes(lookup: string -> Option<string>, entry: string, out: string) {
    && Readable(lookup, entry) && '=' in out && Name(out) == Name(entry)
    && if IsVaultPath(Value(entry)) then Some(Value(out)) == lookup(Value(entry)) else out == entry
  }

  predicate AllBecome(lookup: string -> Option<string>, envs: seq<string>, out: seq<string>) {
    |out| == |envs| && forall i :: 0 <= i < |envs| ==> Becomes(lookup, envs[i], out[i])
  }

  /** Splitting an entry and formatting it again gives the entry. */
  lemma FormatSplit(entry: string)
    requires '=' in entry
    ensures Name(entry) + "=" + Value(entry) == entry
  {
    var i := IndexOf(entry, '=');
    assert entry == entry[..i] + [entry[i]] + entry[i + 1..];
  }

  /**
   DecryptAllEnv. Success means every entry was readable, and then length, order
   and names are kept; a failure returns no list at all, and is that of the first
   entry that is not readable.
   */
  method DecryptAllEnv(lookup: string -> Option<string>, envs: seq<string>) returns (r: Outcome)
    ensures r.Decrypted? <==> forall i :: 0 <= i < |envs| ==> Readable(lookup, envs[i])
    ensures r.Decrypted? ==> AllBecome(lookup, envs, r.env)
    ensures !r.Decrypted? ==> exists i :: 0 <= i < |envs| && !Readable(lookup, envs[i])
                                           && (forall j :: 0 <= j < i ==> Readable(lookup, envs[j]))
                                           && (r.Crashed? <==> '=' !in envs[i])
  {
    var out: seq<string> := [];
    for i := 0 to |envs|
      invariant |out| == i && forall j :: 0 <= j < i ==> Becomes(lookup, envs[j], out[j])
    {
      var entry := envs[i];
      if '=' !in entry {
        return Crashed;
      }
      var value := Value(entry);
      if IsVaultPath(value) {
        var secret := lookup(value);
        if secret.None? {
          return LookupFailed;
        }
        value := secret.value;
      }
      SplitJoin(Name(entry), '=', value);
      FormatSplit(entry);
      out := out + [Name(entry) + "=" + value];
    }
    return Decrypted(out);
  }

  /** Two lists that an environment becomes are the same: the contract leaves nothing open. */
  lemma DecryptionIsUnique(lookup: string -> Option<string>, envs: seq<string>, a: seq<string>, b: seq<string>)
    requires AllBecome(lookup, envs, a) && AllBecome(lookup, envs, b)
    ensures a == b
  {
    forall i | 0 <= i < |envs| ensures a[i] == b[i] {
      assert Becomes(lookup, envs[i], a[i]) && Becomes(lookup, envs[i], b[i]);
      FormatSplit(a[i]);
      FormatSplit(b[i]);
    }
  }

  /** No secret that Vault would give for these entries is itself a Vault path. */
  predicate PlainSecrets(lookup: string -> Option<string>, envs: seq<string>) {
    forall i :: 0 <= i < |envs| && Readable(lookup, envs[i]) && IsVaultPath(Value(envs[i]))
      ==> !IsVaultPath(lookup(Value(envs[i])).value)
  }

  /** Unless a secret is itself a path, a second pass succeeds and changes nothing, whatever Vault then holds. */
  lemma SecondPassIsIdentity(lookup: string -> Option<string>, envs: seq<string>, out: seq<string>,
                             again: string -> Option<string>, out': seq<string>)
    requires AllBecome(lookup, envs, out) && PlainSecrets(lookup, envs)
    ensures AllBecome(again, out, out') <==> out' == out
  {
    forall i | 0 <= i < |envs| ensures '=' in out[i] && !IsVaultPath(Value(out[i])) {
      assert Becomes(lookup, envs[i], out[i]);
    }
    assert AllBecome(again, out, out);
    if AllBecome(again, out, out') {
      DecryptionIsUnique(again, out, out, out');
    }
  }
}
