/** What a policy may know of a caller: declared claims, typed as declared. */
module Auth {
  import opened Wrappers
  import opened Values
  import opened Types

  datatype ClaimKind = StringClaim | BooleanClaim

  datatype ClaimType = ClaimType(kind: ClaimKind, isList: bool) {
    /** The claim's value as a type; for a list claim, the type of its elements. */
    function ElementType(): PropType {
      if kind.StringClaim? then StringT else BooleanT
    }
  }

  const BUILT_IN_CLAIMS: map<string, ClaimType> :=
    map["sub" := ClaimType(StringClaim, false), "iss" := ClaimType(StringClaim, false)]

  /** Every claim a policy may name. The built-ins cannot be redeclared. */
  function Claims(declared: map<string, ClaimType>): map<string, ClaimType> {
    declared + BUILT_IN_CLAIMS
  }

  datatype Principal = Principal(subject: string, issuer: string, claims: map<string, Value>)

  predicate IsA(v: Value, kind: ClaimKind) {
    if kind.BooleanClaim? then v.Bool? else v.Str?
  }

  predicate Readable(v: Value, t: ClaimType) {
    if t.isList then v.List? && forall k | 0 <= k < |v.items| :: IsA(v.items[k], t.kind)
    else IsA(v, t.kind)
  }

  /** Undeclared claims, nulls and values not of the declared type are absent. */
  function ReadableClaims(principal: Option<Principal>, declared: map<string, ClaimType>): map<string, Value> {
    if principal.None? then map[]
    else
      var said := principal.value.claims;
      map name | name in Claims(declared) && Kept(name, said, Claims(declared)) :: said[name]
  }

  predicate Kept(name: string, said: map<string, Value>, claims: map<string, ClaimType>)
    requires name in claims
    ensures Kept(name, said, claims) ==> name in said
  {
    name in said && Readable(said[name], claims[name])
  }

  method ReadClaims(principal: Option<Principal>, declared: map<string, ClaimType>)
    returns (out: map<string, Value>)
    ensures out == ReadableClaims(principal, declared)
  {
    out := map[];
    if principal.None? {
      return;
    }
    var said := principal.value.claims;
    var claims := Claims(declared);
    var todo := claims.Keys;
    while todo != {}
      invariant todo <= claims.Keys
      invariant forall name :: name in out <==> name in claims.Keys - todo && Kept(name, said, claims)
      invariant forall name | name in out :: out[name] == said[name]
      decreases todo
    {
      var name :| name in todo;
      todo := todo - {name};
      if name !in said || said[name].Null? {
        continue;
      }
      var value := said[name];
      if claims[name].isList {
        if value.List? && (forall k | 0 <= k < |value.items| :: IsA(value.items[k], claims[name].kind)) {
          out := out[name := value];
        }
      } else if IsA(value, claims[name].kind) {
        out := out[name := value];
      }
    }
  }

  /** The values are of their declared types, which is what lets a predicate be checked once. */
  ghost predicate TypedClaims(claims: map<string, Value>, declared: map<string, ClaimType>) {
    forall name | name in claims ::
      name in Claims(declared) && Readable(claims[name], Claims(declared)[name])
  }
}
