/** The identity verifier: it stores the attribute form of a user, but only for a hash that
    the identity provider signed. */
module IdentityVerifier {
  import opened Bytes
  import opened IdentityStore
  import opened IdentityProtocol
  import Base16

  type Form = map<string, string>

  /** The provider's key: which strings are signatures at all, and which sign a message. */
  datatype VerifyKey = VerifyKey(parses: string -> bool, accepts: (seq<Byte>, string) -> bool)

  datatype Reply =
    | Refused                                        // 400
    | Panicked                                       // the key is not base16
    | FailRedirect(version: string, key: Key, delay: string)
    | CreateRedirect(version: string, key: Key, expiry: string)

  const RESERVED := {"endpoint_version", "fail_delay", "id_cred_pub", "id_cred_pub_signature", "expiry"}

  /** The attributes proper: what is left of the form without its own fields and empty answers. */
  function FormAttributes(form: Form): Attributes {
    map f | f in form && f !in RESERVED && form[f] != "" :: form[f]
  }

  /** The forms whose attributes are stored. */
  predicate Admissible(form: Form, vk: VerifyKey) {
    && {"id_cred_pub", "endpoint_version", "id_cred_pub_signature", "expiry"} <= form.Keys
    && "fail" !in form
    && form["endpoint_version"] in {"v0", "v1"}
    && vk.parses(form["id_cred_pub_signature"])
    && Base16.Decode(form["id_cred_pub"]).Some?
    && vk.accepts(Base16.Decode(form["id_cred_pub"]).value, form["id_cred_pub_signature"])
  }

  function WithoutDashes(s: string): (t: string)
    ensures '-' !in t
  {
    if s == "" then "" else if s[0] == '-' then WithoutDashes(s[1..]) else [s[0]] + WithoutDashes(s[1..])
  }

  /** Nothing but the dashes goes, and what stays keeps its order. */
  lemma {:induction false} WithoutDashesAppend(s: string, c: char)
    ensures WithoutDashes(s + [c]) == WithoutDashes(s) + if c == '-' then "" else [c]
  {
    if s == "" {
      assert [c][1..] == "" && "" + [c] == [c];
    } else {
      WithoutDashesAppend(s[1..], c);
      assert (s + [c])[1..] == s[1..] + [c];
    }
  }

  class Verifier {
    var attributes: map<Key, Attributes>

    /** The submission handler, check by check. */
    method Submit(form: Form, vk: VerifyKey) returns (reply: Reply)
      modifies this
      ensures reply.CreateRedirect? <==> Admissible(form, vk)
      ensures attributes == if reply.CreateRedirect?
                            then old(attributes)[form["id_cred_pub"] := FormAttributes(form)]
                            else old(attributes)
      ensures reply.CreateRedirect? ==>
        && reply.version == form["endpoint_version"]
        && reply.key == form["id_cred_pub"]
        && reply.expiry == WithoutDashes(form["expiry"])
      ensures reply.CreateRedirect? ==>
        forall f :: f in attributes[reply.key] <==>
                    && f in form && form[f] != "" && f != "endpoint_version" && f != "fail_delay"
                    && f != "id_cred_pub" && f != "id_cred_pub_signature" && f != "expiry"
      ensures reply.CreateRedirect? ==> forall f :: f in attributes[reply.key] ==> attributes[reply.key][f] == form[f]
      ensures reply.FailRedirect? <==>
        {"id_cred_pub", "endpoint_version", "fail", "fail_delay"} <= form.Keys
      ensures reply.FailRedirect? ==>
        reply == FailRedirect(form["endpoint_version"], form["id_cred_pub"], form["fail_delay"])
      ensures reply.Panicked? <==>
        && {"id_cred_pub", "endpoint_version"} <= form.Keys && "fail" !in form
        && Base16.Decode(form["id_cred_pub"]).None?
    {
      var input := form;
      if "id_cred_pub" !in input { return Refused; }
      var key := input["id_cred_pub"];
      if "endpoint_version" !in input { return Refused; }
      var version := input["endpoint_version"];
      input := input - {"endpoint_version"};
      if "fail" in input {
        if "fail_delay" !in input { return Refused; }
        return FailRedirect(version, key, input["fail_delay"]);
      }
      input := input - {"fail_delay"};
      var bytes := Base16.Decode(key);
      if bytes.None? { return Panicked; }
      input := input - {"id_cred_pub"};
      if "id_cred_pub_signature" !in input { return Refused; }
      var signature := input["id_cred_pub_signature"];
      input := input - {"id_cred_pub_signature"};
      if version != "v0" && version != "v1" { return Refused; }
      if !vk.parses(signature) { return Refused; }
      if !vk.accepts(bytes.value, signature) { return Refused; }
      if "expiry" !in input { return Refused; }
      var expiry := WithoutDashes(input["expiry"]);
      input := input - {"expiry"};
      input := map f | f in input && input[f] != "" :: input[f];
      attributes := attributes[key := input];
      assert input == FormAttributes(form);
      return CreateRedirect(version, key, expiry);
    }
  }

  /** When only messages that the provider signed verify, storing a form is a step of the
      protocol. */
  lemma StoringIsAStep(cfg: Config, once: bool, s: System, form: Form, vk: VerifyKey)
    requires forall m, sig | vk.accepts(m, sig) :: m in s.history.signed
    requires Admissible(form, vk)
    ensures var l := SubmitAttributes(form["id_cred_pub"], FormAttributes(form));
            && Enabled(cfg, once, s, l)
            && Step(cfg, once, s, l).verifier == s.verifier[form["id_cred_pub"] := FormAttributes(form)]
            && Step(cfg, once, s, l).store == s.store
  {
  }
}
