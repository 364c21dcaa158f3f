/** `Alegra_Data_Mapper::get_or_create_client`: find the Alegra contact for an
    order's billing identification, or create one. The two Alegra API calls
    are inputs: `search` is what `GET contacts?query=<id>` returned and
    `create` what `POST contacts` would return; an exception thrown by the
    API client (connection error, HTTP status >= 400) is a `...Failed` reply.
    `calcular_dv`, which the source calls but does not define, is the
    parameter `checkDigit`. */
module CustomerResolver {
  import opened Wrappers
  import opened PhpText
  import opened WooOrder

  // ------------------------------------------------------ identification

  /** The placeholder identification of a final consumer: '222222222'
      followed by the order id. */
  function PlaceholderId(orderId: nat): (id: string)
    ensures |id| > 9 && id[..9] == "222222222" && AllDigits(id)
  {
    "222222222" + DecimalString(orderId)
  }

  /** Two different orders never share a placeholder identification. */
  lemma PlaceholderIdsDistinct(a: nat, b: nat)
    requires a != b
    ensures PlaceholderId(a) != PlaceholderId(b)
  {
    var pa, pb := PlaceholderId(a), PlaceholderId(b);
    if pa == pb {
      assert pa[9..] == DecimalString(a);
      assert pb[9..] == DecimalString(b);
      DecimalStringInjective(a, b);
    }
  }

  /** The identification number used to look up and create the contact: the
      first of the meta fields `_billing_cedula`, `billing_cedula`,
      `billing_identification` that is not PHP-empty, otherwise the order's
      placeholder. It is never PHP-empty. */
  function BillingIdentification(order: Order): (id: string)
    ensures !Empty(id)
    ensures !Empty(Meta(order, "_billing_cedula")) ==> id == Meta(order, "_billing_cedula")
    ensures Empty(Meta(order, "_billing_cedula")) && !Empty(Meta(order, "billing_cedula"))
            ==> id == Meta(order, "billing_cedula")
    ensures Empty(Meta(order, "_billing_cedula")) && Empty(Meta(order, "billing_cedula")) &&
            !Empty(Meta(order, "billing_identification"))
            ==> id == Meta(order, "billing_identification")
    ensures Empty(Meta(order, "_billing_cedula")) && Empty(Meta(order, "billing_cedula")) &&
            Empty(Meta(order, "billing_identification"))
            ==> id == PlaceholderId(order.id)
  {
    var chosen := Elvis(Elvis(Meta(order, "_billing_cedula"), Meta(order, "billing_cedula")),
                        Meta(order, "billing_identification"));
    if Empty(chosen) then PlaceholderId(order.id) else chosen
  }

  /** Two orders without any identification meta never share an
      identification, however the meta maps otherwise differ. */
  lemma OrdersWithoutIdDoNotCollide(a: Order, b: Order)
    requires a.id != b.id
    requires Empty(Meta(a, "_billing_cedula")) && Empty(Meta(a, "billing_cedula")) &&
             Empty(Meta(a, "billing_identification"))
    requires Empty(Meta(b, "_billing_cedula")) && Empty(Meta(b, "billing_cedula")) &&
             Empty(Meta(b, "billing_identification"))
    ensures BillingIdentification(a) != BillingIdentification(b)
  {
    PlaceholderIdsDistinct(a.id, b.id);
  }

  // ------------------------------------------------------ classification

  datatype DocType = CC | NIT | CE | TI | PP

  /** The code Alegra uses for a document type, also the text searched for
      in the order's type hint. */
  function DocCode(d: DocType): string
  {
    match d
    case CC => "CC"
    case NIT => "NIT"
    case CE => "CE"
    case TI => "TI"
    case PP => "PP"
  }

  predicate Mentions(hint: string, d: DocType)
  {
    ContainsIgnoringCase(hint, DocCode(d))
  }

  /** The sequence of `if (stripos(...)) $doc_type = ...;` statements: each
      code of `codes`, in turn, replaces `current` when `found` holds of it. */
  function LastFound(found: DocType -> bool, codes: seq<DocType>, current: DocType): DocType
  {
    if codes == [] then current
    else LastFound(found, codes[1..], if found(codes[0]) then codes[0] else current)
  }

  /** With no code found, the initial value stays. */
  lemma {:induction false} LastFoundNone(found: DocType -> bool, codes: seq<DocType>, current: DocType)
    requires forall j :: 0 <= j < |codes| ==> !found(codes[j])
    ensures LastFound(found, codes, current) == current
  {
    if codes != [] {
      assert forall j :: 0 <= j < |codes[1..]| ==> codes[1..][j] == codes[j + 1];
      LastFoundNone(found, codes[1..], current);
    }
  }

  /** The last code found wins. */
  lemma {:induction false} LastFoundWins(found: DocType -> bool, codes: seq<DocType>, current: DocType, k: nat)
    requires k < |codes| && found(codes[k])
    requires forall j :: k < j < |codes| ==> !found(codes[j])
    ensures LastFound(found, codes, current) == codes[k]
  {
    var rest := codes[1..];
    var next := if found(codes[0]) then codes[0] else current;
    assert forall j :: 0 <= j < |rest| ==> rest[j] == codes[j + 1];
    if k == 0 {
      LastFoundNone(found, rest, next);
    } else {
      LastFoundWins(found, rest, next, k - 1);
    }
  }

  /** The document type for the type hint `billing_typeid ?: 'CC'`: the hint
      is searched, ignoring case, for NIT, CE, TI and PP in that order and
      the last one found wins; CC when none is found. */
  function DocTypeOf(hint: string): (d: DocType)
    ensures d == PP <==> Mentions(hint, PP)
    ensures d == TI <==> Mentions(hint, TI) && !Mentions(hint, PP)
    ensures d == CE <==> Mentions(hint, CE) && !Mentions(hint, TI) && !Mentions(hint, PP)
    ensures d == NIT <==> Mentions(hint, NIT) && !Mentions(hint, CE) && !Mentions(hint, TI) &&
                          !Mentions(hint, PP)
    ensures d == CC <==> !Mentions(hint, NIT) && !Mentions(hint, CE) && !Mentions(hint, TI) &&
                         !Mentions(hint, PP)
  {
    var codes := [NIT, CE, TI, PP];
    var found := c => Mentions(hint, c);
    var d := LastFound(found, codes, CC);
    if found(PP) then LastFoundWins(found, codes, CC, 3); d
    else if found(TI) then LastFoundWins(found, codes, CC, 2); d
    else if found(CE) then LastFoundWins(found, codes, CC, 1); d
    else if found(NIT) then LastFoundWins(found, codes, CC, 0); d
    else LastFoundNone(found, codes, CC); d
  }

  datatype PersonKind = LegalEntity | PersonEntity

  /** The kind of person: the `billing_persontype` override when it is exactly
      LEGAL_ENTITY or PERSON_ENTITY, otherwise legal exactly for a NIT. */
  function KindOfPerson(personType: string, doc: DocType): (k: PersonKind)
    ensures personType == "LEGAL_ENTITY" ==> k == LegalEntity
    ensures personType == "PERSON_ENTITY" ==> k == PersonEntity
    ensures personType != "LEGAL_ENTITY" && personType != "PERSON_ENTITY"
            ==> (k == LegalEntity <==> doc == NIT)
  {
    if !Empty(personType) && (personType == "LEGAL_ENTITY" || personType == "PERSON_ENTITY") then
      (if personType == "LEGAL_ENTITY" then LegalEntity else PersonEntity)
    else if doc == NIT then LegalEntity
    else PersonEntity
  }

  /** The tax regime: the `billing_regimen` override when it is neither empty
      nor '0', otherwise COMMON_REGIME for a legal entity and
      SIMPLIFIED_REGIME for a natural person. Never PHP-empty. */
  function Regime(regimen: string, kind: PersonKind): (r: string)
    ensures !Empty(r)
    ensures !Empty(regimen) ==> r == regimen
    ensures Empty(regimen) && kind == LegalEntity ==> r == "COMMON_REGIME"
    ensures Empty(regimen) && kind == PersonEntity ==> r == "SIMPLIFIED_REGIME"
  {
    if !Empty(regimen) && regimen != "0" then regimen
    else if kind == LegalEntity then "COMMON_REGIME"
    else "SIMPLIFIED_REGIME"
  }

  /** `trim("first last")`, or 'Cliente WooCommerce' when that is PHP-empty. */
  function FullName(first: string, last: string): (n: string)
    ensures !Empty(n)
    ensures n == "Cliente WooCommerce" || n == Trim(first + " " + last)
    ensures !Empty(Trim(first + " " + last)) ==> n == Trim(first + " " + last)
  {
    var joined := Trim(first + " " + last);
    if Empty(joined) then "Cliente WooCommerce" else joined
  }

  /** The contact's display name: the company for a legal entity with a
      company, otherwise the full name. */
  function DisplayName(kind: PersonKind, company: string, fullName: string): (n: string)
    ensures kind == LegalEntity && !Empty(company) ==> n == company
    ensures kind == PersonEntity || Empty(company) ==> n == fullName
  {
    if kind == LegalEntity then (if !Empty(company) then company else fullName)
    else fullName
  }

  // ------------------------------------------------------------- payload

  datatype IdentificationObject = IdentificationObject(kind: DocType, number: string, dv: Option<int>)

  datatype NameObject = NameObject(firstName: string, lastName: string)

  /** The body of `POST contacts`; an absent optional field is a key the
      source does not set. */
  datatype ContactPayload = ContactPayload(
    name: string,
    identification: IdentificationObject,
    email: string,
    kindOfPerson: PersonKind,
    regime: string,
    nameObject: Option<NameObject>)

  /** The create payload for an order whose identification is `billingId`. */
  function ContactPayloadFor(order: Order, billingId: string, checkDigit: string -> int): (p: ContactPayload)
    ensures p.identification.number == billingId && p.email == order.billingEmail
    ensures p.identification.kind == DocTypeOf(Elvis(Meta(order, "billing_typeid"), "CC"))
    ensures p.kindOfPerson == KindOfPerson(Meta(order, "billing_persontype"), p.identification.kind)
    ensures p.regime == Regime(Meta(order, "billing_regimen"), p.kindOfPerson)
    ensures !Empty(p.name)
    ensures p.kindOfPerson == LegalEntity && !Empty(order.billingCompany) ==> p.name == order.billingCompany
    ensures p.kindOfPerson == PersonEntity || Empty(order.billingCompany)
            ==> p.name == FullName(order.billingFirstName, order.billingLastName)
    ensures p.identification.dv.Some? <==> p.identification.kind == NIT
    ensures p.identification.dv.Some? ==> p.identification.dv.value == checkDigit(billingId)
    ensures p.nameObject.Some? <==> p.kindOfPerson == PersonEntity
    ensures p.nameObject.Some? ==>
              p.nameObject.value ==
              NameObject(Elvis(order.billingFirstName, "Cliente"), Elvis(order.billingLastName, "Final"))
  {
    var first, last := order.billingFirstName, order.billingLastName;
    var fullName := FullName(first, last);
    var docType := DocTypeOf(Elvis(Meta(order, "billing_typeid"), "CC"));
    var kind := KindOfPerson(Meta(order, "billing_persontype"), docType);
    var regime := Regime(Meta(order, "billing_regimen"), kind);
    var dv := if docType == NIT then Some(checkDigit(billingId)) else None;
    var nameObject := if kind == PersonEntity
                      then Some(NameObject(Elvis(first, "Cliente"), Elvis(last, "Final")))
                      else None;
    ContactPayload(DisplayName(kind, order.billingCompany, fullName),
                   IdentificationObject(docType, billingId, dv),
                   order.billingEmail, kind, regime, nameObject)
  }

  // -------------------------------------------------------- API replies

  /** One decoded element of the search reply; `id` is None when the element
      has no non-null `id` property. */
  datatype Contact = Contact(id: Option<string>)

  /** What `GET contacts?query=...` gave: an exception, a JSON array, or any
      other decoded JSON value. */
  datatype SearchReply = SearchFailed(exception: string) | ContactList(contacts: seq<Contact>) | NotAList

  /** What `POST contacts` gave: an exception, or a decoded object with its
      optional `id` and `message` properties and its `json_encode` text. */
  datatype CreateReply =
    | CreateFailed(exception: string)
    | CreateDecoded(id: Option<string>, message: Option<string>, json: string)

  /** The search found a usable contact: a non-empty array whose first
      element has an id. */
  predicate FoundExisting(search: SearchReply)
  {
    search.ContactList? && |search.contacts| > 0 && search.contacts[0].id.Some?
  }

  /** What resolving did: the identification it searched for, the payload it
      posted (None when it made no create call) and the contact id it
      returned or the message of the exception it threw. */
  datatype Resolution = Resolution(query: string, sent: Option<ContactPayload>, outcome: Result<string>)

  /** `get_or_create_client`. */
  function ResolveClient(order: Order, search: SearchReply, create: CreateReply,
                         checkDigit: string -> int): (res: Resolution)
    ensures res.query == BillingIdentification(order)
    ensures search.SearchFailed? ==> res.sent == None && res.outcome == Error(search.exception)
    ensures FoundExisting(search) ==> res.sent == None && res.outcome == Ok(search.contacts[0].id.value)
    ensures res.sent.Some? <==> !search.SearchFailed? && !FoundExisting(search)
    ensures res.sent.Some? ==> res.sent.value == ContactPayloadFor(order, res.query, checkDigit)
    ensures res.sent.Some? ==>
              (res.outcome.Ok? <==> create.CreateDecoded? && create.id.Some?)
    ensures res.sent.Some? && res.outcome.Ok? ==> res.outcome.value == create.id.value
    ensures res.sent.Some? && create.CreateFailed? ==> res.outcome == Error(create.exception)
    ensures res.sent.Some? && create.CreateDecoded? && create.id.None? ==>
              res.outcome == Error(if create.message.Some? then create.message.value else create.json)
  {
    var billingId := BillingIdentification(order);
    if search.SearchFailed? then Resolution(billingId, None, Error(search.exception))
    else if FoundExisting(search) then Resolution(billingId, None, Ok(search.contacts[0].id.value))
    else
      var payload := ContactPayloadFor(order, billingId, checkDigit);
      var outcome :=
        match create
        case CreateFailed(exception) => Error(exception)
        case CreateDecoded(id, message, json) =>
          if id.Some? then Ok(id.value)
          else Error(if message.Some? then message.value else json);
      Resolution(billingId, Some(payload), outcome)
  }
}
