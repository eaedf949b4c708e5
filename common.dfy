/**
 * Constants of the X.509 registration plugin: the accepted certificate-policy
 * catalog, the scan bound, the username length bounds and the attribute and
 * auth-note names.
 */
module Common {
  /** Form field and lookup key of the e-mail address. */
  const Email: string := "email"

  /** Username length bounds imposed by Mattermost, both inclusive. */
  const MinUserNameLength: nat := 3
  const MaxUserNameLength: nat := 22

  /** User attribute that binds an account to its X.509 identity. */
  const UserIdAttribute: string := "usercertificate"

  /** Auth-note name of the "do not offer UPDATE_X509 again" flag. */
  const IgnoreX509: string := "IGNORE_X509"

  /** User attribute recording the X.509 identity presented in this session. */
  const UserActiveX509Attr: string := "activecac"

  /** OID of the certificate-policies extension. */
  const CertificatePolicyOid: string := "2.5.29.32"

  /** Number of policy slots of the leaf certificate that are inspected. */
  const MaxCertPoliciesToCheck: nat := 10

  /** id-US-dod-mediumhardware. */
  const IdUsDodMediumHardware: string := "2.16.840.1.101.2.1.11.9"

  /** id-fpki-common-hardware, listed once for each of seven issuing PKIs. */
  const IdFpkiCommonHardware: string := "2.16.840.1.101.3.2.1.3.7"

  /** The issuing PKIs whose policies the catalog lists, in catalog order. */
  datatype Pki =
    | Dod | Eca | Fpki | EntrustSsp | OrcSsp | State
    | TreasurySsp | SymantecSsp | VerizonSsp | Boeing | Carillon | CertiPath
    | EntrustNfi | Exostar | IdenTrust | LockheedMartin | NlMod | NorthropGrumman
    | OrcNfi | Raytheon | SymantecNfi | Tscp | VerizonNfi | Ado

  /** The accepted policy OIDs of one PKI. */
  function Policies(pki: Pki): (r: seq<string>)
    ensures |r| > 0
  {
    match pki
    // DoD PKI (REQUIRED_CERT_POLICIES, Common.java lines 47-66).
    case Dod => [
      "2.16.840.1.101.2.1.11.5",
      IdUsDodMediumHardware,
      "2.16.840.1.101.2.1.11.10",
      "2.16.840.1.101.2.1.11.18",
      "2.16.840.1.101.2.1.11.19",
      "2.16.840.1.101.2.1.11.20",
      "2.16.840.1.101.2.1.11.31",
      "2.16.840.1.101.2.1.11.36",
      "2.16.840.1.101.2.1.11.37",
      "2.16.840.1.101.2.1.11.38",
      "2.16.840.1.101.2.1.11.39",
      "2.16.840.1.101.2.1.11.40",
      "2.16.840.1.101.2.1.11.41",
      "2.16.840.1.101.2.1.11.42",
      "2.16.840.1.101.2.1.11.43",
      "2.16.840.1.101.2.1.11.44",
      "2.16.840.1.101.2.1.11.59",
      "2.16.840.1.101.2.1.11.60",
      "2.16.840.1.101.2.1.11.61",
      "2.16.840.1.101.2.1.11.62"
      ]
    // External Certification Authority (ECA) PKI (REQUIRED_CERT_POLICIES, Common.java lines 67-75).
    case Eca => [
      "2.16.840.1.101.3.2.1.12.1",
      "2.16.840.1.101.3.2.1.12.2",
      "2.16.840.1.101.3.2.1.12.3",
      "2.16.840.1.101.3.2.1.12.4",
      "2.16.840.1.101.3.2.1.12.5",
      "2.16.840.1.101.3.2.1.12.6",
      "2.16.840.1.101.3.2.1.12.8",
      "2.16.840.1.101.3.2.1.12.9",
      "2.16.840.1.101.3.2.1.12.10"
      ]
    // Federal PKI common and certificate policies (REQUIRED_CERT_POLICIES, Common.java lines 76-86).
    case Fpki => [
      "2.16.840.1.101.3.2.1.3.4",
      IdFpkiCommonHardware,
      "2.16.840.1.101.3.2.1.3.12",
      "2.16.840.1.101.3.2.1.3.13",
      "2.16.840.1.101.3.2.1.3.16",
      "2.16.840.1.101.3.2.1.3.18",
      "2.16.840.1.101.3.2.1.3.20",
      "2.16.840.1.101.3.2.1.3.36",
      "2.16.840.1.101.3.2.1.3.38",
      "2.16.840.1.101.3.2.1.3.39",
      "2.16.840.1.101.3.2.1.3.24"
      ]
    // Entrust SSP PKI Assurance Levels (REQUIRED_CERT_POLICIES, Common.java lines 89-92).
    case EntrustSsp => [
      IdFpkiCommonHardware,
      "2.16.840.1.101.3.2.1.3.13",
      "2.16.840.1.101.3.2.1.3.36",
      "2.16.840.1.101.3.2.1.3.39"
      ]
    // ORC SSP PKI Asserted Policies (REQUIRED_CERT_POLICIES, Common.java lines 95-98).
    case OrcSsp => [
      IdFpkiCommonHardware,
      "2.16.840.1.101.3.2.1.3.13",
      "2.16.840.1.101.3.2.1.3.36",
      "2.16.840.1.101.3.2.1.3.39"
      ]
    // Department of State PKI Assurance Levels (REQUIRED_CERT_POLICIES, Common.java lines 101-105).
    case State => [
      "2.16.840.1.101.3.2.1.6.4",
      "2.16.840.1.101.3.2.1.6.12",
      IdFpkiCommonHardware,
      "2.16.840.1.101.3.2.1.3.13",
      "2.16.840.1.101.3.2.1.3.16"
      ]
    // U.S. Treasury SSP PKI Assurance Levels (REQUIRED_CERT_POLICIES, Common.java lines 108-114).
    case TreasurySsp => [
      "2.16.840.1.101.3.2.1.5.4",
      "2.16.840.1.101.3.2.1.5.5",
      IdFpkiCommonHardware,
      "2.16.840.1.101.3.2.1.3.13",
      "2.16.840.1.101.3.2.1.3.16",
      "2.16.840.1.101.3.2.1.3.36",
      "2.16.840.1.101.3.2.1.3.39"
      ]
    // Symantec SSP PKI Assurance Levels (REQUIRED_CERT_POLICIES, Common.java lines 117-121).
    case SymantecSsp => [
      IdFpkiCommonHardware,
      "2.16.840.1.101.3.2.1.3.13",
      "2.16.840.1.101.3.2.1.3.16",
      "2.16.840.1.101.3.2.1.3.36",
      "2.16.840.1.101.3.2.1.3.39"
      ]
    // Verizon Business SSP PKI Assurance Levels (REQUIRED_CERT_POLICIES, Common.java lines 124-126).
    case VerizonSsp => [
      IdFpkiCommonHardware,
      "2.16.840.1.101.3.2.1.3.13",
      "2.16.840.1.101.3.2.1.3.39"
      ]
    // Boeing PKI Assurance Levels (REQUIRED_CERT_POLICIES, Common.java lines 129-132).
    case Boeing => [
      "1.3.6.1.4.1.73.15.3.1.5",
      "1.3.6.1.4.1.73.15.3.1.12",
      "1.3.6.1.4.1.73.15.3.1.16",
      "1.3.6.1.4.1.73.15.3.1.17"
      ]
    // Carillon Federal Services PKI (REQUIRED_CERT_POLICIES, Common.java lines 135-137).
    case Carillon => [
      "1.3.6.1.4.1.45606.3.1.12",
      "1.3.6.1.4.1.45606.3.1.20",
      "1.3.6.1.4.1.45606.3.1.22"
      ]
    // CertiPath Bridge (REQUIRED_CERT_POLICIES, Common.java lines 140-145).
    case CertiPath => [
      "1.3.6.1.4.1.24019.1.1.1.2",
      "1.3.6.1.4.1.24019.1.1.1.3",
      "1.3.6.1.4.1.24019.1.1.1.7",
      "1.3.6.1.4.1.24019.1.1.1.9",
      "1.3.6.1.4.1.24019.1.1.1.18",
      "1.3.6.1.4.1.24019.1.1.1.19"
      ]
    // Entrust Non-Federal Issuer PKI Assurance Levels (REQUIRED_CERT_POLICIES, Common.java lines 148-153).
    case EntrustNfi => [
      "2.16.840.1.114027.200.3.10.7.2",
      "2.16.840.1.114027.200.3.10.7.4",
      "2.16.840.1.114027.200.3.10.7.6",
      "2.16.840.1.114027.200.3.10.7.9",
      "2.16.840.1.114027.200.3.10.7.13",
      "2.16.840.1.114027.200.3.10.7.16"
      ]
    // Exostar PKI Assurance Levels (REQUIRED_CERT_POLICIES, Common.java line 156).
    case Exostar => [
      "1.3.6.1.4.1.13948.1.1.1.6"
      ]
    // IdenTrust NFI Assurance Levels (REQUIRED_CERT_POLICIES, Common.java lines 159-164).
    case IdenTrust => [
      "2.16.840.1.113839.0.100.12.1",
      "2.16.840.1.113839.0.100.12.2",
      "2.16.840.1.113839.0.100.18.0",
      "2.16.840.1.113839.0.100.18.1",
      "2.16.840.1.113839.0.100.18.2",
      "2.16.840.1.113839.0.100.20.1"
      ]
    // Lockheed Martin PKI Assurance Levels (REQUIRED_CERT_POLICIES, Common.java line 167).
    case LockheedMartin => [
      "1.3.6.1.4.1.103.100.1.1.3.3"
      ]
    // NL MoD NFI PKI Assurance Levels (REQUIRED_CERT_POLICIES, Common.java lines 170-172).
    case NlMod => [
      "2.16.528.1.1003.1.2.5.1",
      "2.16.528.1.1003.1.2.5.2",
      "2.16.528.1.1003.1.2.5.3"
      ]
    // Northrop Grumman PKI Assurance Levels (REQUIRED_CERT_POLICIES, Common.java lines 175-181).
    case NorthropGrumman => [
      "1.3.6.1.4.1.16334.509.2.6",
      "1.3.6.1.4.1.16334.509.2.8",
      "1.3.6.1.4.1.16334.509.2.9",
      "1.3.6.1.4.1.16334.509.2.11"
      ]
    // ORC NFI PKI Assurance Levels (REQUIRED_CERT_POLICIES, Common.java lines 185-188).
    case OrcNfi => [
      "1.3.6.1.4.1.3922.1.1.1.12",
      "1.3.6.1.4.1.3922.1.1.1.18",
      "1.3.6.1.4.1.3922.1.1.1.20",
      "1.3.6.1.4.1.3922.1.1.1.38"
      ]
    // Raytheon PKI Assurance Levels (REQUIRED_CERT_POLICIES, Common.java lines 191-193).
    case Raytheon => [
      "1.3.6.1.4.1.1569.10.1.1",
      "1.3.6.1.4.1.1569.10.1.2",
      "1.3.6.1.4.1.1569.10.1.12"
      ]
    // Symantec NFI PKI Assurance Levels (REQUIRED_CERT_POLICIES, Common.java lines 196-199).
    case SymantecNfi => [
      "2.16.840.1.113733.1.7.23.3.1.7",
      "2.16.840.1.113733.1.7.23.3.1.18",
      "2.16.840.1.113733.1.7.23.3.1.20",
      "2.16.840.1.113733.1.7.23.3.1.36"
      ]
    // TSCP Bridge (REQUIRED_CERT_POLICIES, Common.java lines 202-204).
    case Tscp => [
      "1.3.6.1.4.1.38099.1.1.1.2",
      "1.3.6.1.4.1.38099.1.1.1.5",
      "1.3.6.1.4.1.38099.1.1.1.7"
      ]
    // Verizon Business Non-Federal Issuer PKI Assurance Levels (REQUIRED_CERT_POLICIES, Common.java lines 207-209).
    case VerizonNfi => [
      "1.3.6.1.4.1.23337.1.1.8",
      "1.3.6.1.4.1.23337.1.1.10",
      "1.3.6.1.4.1.23337.1.1.11"
      ]
    // ADO PKI Assurance Levels (REQUIRED_CERT_POLICIES, Common.java lines 212-213).
    case Ado => [
      "1.2.36.1.334.1.2.1.2",
      "1.2.36.1.334.1.2.2.2"
      ]
  }

  /**
   * The accepted certificate-policy OIDs, in the order and with the
   * repetitions of the source list.
   */
  function RequiredCertPolicies(): seq<string>
  {
    Policies(Dod) + (Policies(Eca) + (Policies(Fpki) + (Policies(EntrustSsp) + (
    Policies(OrcSsp) + (Policies(State) + (Policies(TreasurySsp) + (Policies(SymantecSsp) + (
    Policies(VerizonSsp) + (Policies(Boeing) + (Policies(Carillon) + (Policies(CertiPath) + (
    Policies(EntrustNfi) + (Policies(Exostar) + (Policies(IdenTrust) + (Policies(LockheedMartin) + (
    Policies(NlMod) + (Policies(NorthropGrumman) + (Policies(OrcNfi) + (Policies(Raytheon) + (
    Policies(SymantecNfi) + (Policies(Tscp) + (Policies(VerizonNfi) + Policies(Ado)))))))))))))))))))))))
  }

  /** `Stream.anyMatch(s -> s.equals(oid))` over a list of OIDs. */
  function AnyMatch(catalog: seq<string>, oid: string): (r: bool)
    ensures r <==> exists i :: 0 <= i < |catalog| && catalog[i] == oid
  {
    if catalog == [] then false
    else catalog[0] == oid || AnyMatch(catalog[1..], oid)
  }

  /**
   * An OID is accepted when some entry of the catalog equals it: the
   * `anyMatch` over REQUIRED_CERT_POLICIES, stated per issuing PKI (see
   * AcceptedIffInCatalog for the flat list).
   */
  predicate IsAcceptedPolicy(oid: string)
  {
    exists pki: Pki :: oid in Policies(pki)
  }

  /** The list with every repeated entry kept once (its last occurrence). */
  function Distinct(s: seq<string>): (r: seq<string>)
    ensures forall x :: x in r <==> x in s
    ensures forall i, j :: 0 <= i < j < |r| ==> r[i] != r[j]
    ensures |r| <= |s|
  {
    if s == [] then []
    else if s[0] in s[1..] then Distinct(s[1..])
    else [s[0]] + Distinct(s[1..])
  }

  lemma {:induction false} DistinctDropsRepeats(s: seq<string>, i: nat, j: nat)
    requires i < j < |s| && s[i] == s[j]
    ensures |Distinct(s)| < |s|
  {
    if i == 0 {
      assert s[1..][j - 1] == s[0];
    } else {
      DistinctDropsRepeats(s[1..], i - 1, j - 1);
    }
  }

  /** id-US-dod-mediumhardware is accepted. */
  lemma DodMediumHardwareIsAccepted()
    ensures IsAcceptedPolicy(IdUsDodMediumHardware)
  {
    assert Policies(Dod)[1] == IdUsDodMediumHardware;
  }

  /** Acceptance is membership in the flat REQUIRED_CERT_POLICIES list. */
  lemma AcceptedIffInCatalog(oid: string)
    ensures IsAcceptedPolicy(oid) <==> oid in RequiredCertPolicies()
  {
    if IsAcceptedPolicy(oid) {
      var pki :| oid in Policies(pki);
      match pki
      case Dod => assert oid in Policies(Dod);
      case Eca => assert oid in Policies(Eca);
      case Fpki => assert oid in Policies(Fpki);
      case EntrustSsp => assert oid in Policies(EntrustSsp);
      case OrcSsp => assert oid in Policies(OrcSsp);
      case State => assert oid in Policies(State);
      case TreasurySsp => assert oid in Policies(TreasurySsp);
      case SymantecSsp => assert oid in Policies(SymantecSsp);
      case VerizonSsp => assert oid in Policies(VerizonSsp);
      case Boeing => assert oid in Policies(Boeing);
      case Carillon => assert oid in Policies(Carillon);
      case CertiPath => assert oid in Policies(CertiPath);
      case EntrustNfi => assert oid in Policies(EntrustNfi);
      case Exostar => assert oid in Policies(Exostar);
      case IdenTrust => assert oid in Policies(IdenTrust);
      case LockheedMartin => assert oid in Policies(LockheedMartin);
      case NlMod => assert oid in Policies(NlMod);
      case NorthropGrumman => assert oid in Policies(NorthropGrumman);
      case OrcNfi => assert oid in Policies(OrcNfi);
      case Raytheon => assert oid in Policies(Raytheon);
      case SymantecNfi => assert oid in Policies(SymantecNfi);
      case Tscp => assert oid in Policies(Tscp);
      case VerizonNfi => assert oid in Policies(VerizonNfi);
      case Ado => assert oid in Policies(Ado);
    }
    if oid in RequiredCertPolicies() {
      if oid in Policies(Dod) {
        assert IsAcceptedPolicy(oid);
      } else if oid in Policies(Eca) {
        assert IsAcceptedPolicy(oid);
      } else if oid in Policies(Fpki) {
        assert IsAcceptedPolicy(oid);
      } else if oid in Policies(EntrustSsp) {
        assert IsAcceptedPolicy(oid);
      } else if oid in Policies(OrcSsp) {
        assert IsAcceptedPolicy(oid);
      } else if oid in Policies(State) {
        assert IsAcceptedPolicy(oid);
      } else if oid in Policies(TreasurySsp) {
        assert IsAcceptedPolicy(oid);
      } else if oid in Policies(SymantecSsp) {
        assert IsAcceptedPolicy(oid);
      } else if oid in Policies(VerizonSsp) {
        assert IsAcceptedPolicy(oid);
      } else if oid in Policies(Boeing) {
        assert IsAcceptedPolicy(oid);
      } else if oid in Policies(Carillon) {
        assert IsAcceptedPolicy(oid);
      } else if oid in Policies(CertiPath) {
        assert IsAcceptedPolicy(oid);
      } else if oid in Policies(EntrustNfi) {
        assert IsAcceptedPolicy(oid);
      } else if oid in Policies(Exostar) {
        assert IsAcceptedPolicy(oid);
      } else if oid in Policies(IdenTrust) {
        assert IsAcceptedPolicy(oid);
      } else if oid in Policies(LockheedMartin) {
        assert IsAcceptedPolicy(oid);
      } else if oid in Policies(NlMod) {
        assert IsAcceptedPolicy(oid);
      } else if oid in Policies(NorthropGrumman) {
        assert IsAcceptedPolicy(oid);
      } else if oid in Policies(OrcNfi) {
        assert IsAcceptedPolicy(oid);
      } else if oid in Policies(Raytheon) {
        assert IsAcceptedPolicy(oid);
      } else if oid in Policies(SymantecNfi) {
        assert IsAcceptedPolicy(oid);
      } else if oid in Policies(Tscp) {
        assert IsAcceptedPolicy(oid);
      } else if oid in Policies(VerizonNfi) {
        assert IsAcceptedPolicy(oid);
      } else if oid in Policies(Ado) {
        assert IsAcceptedPolicy(oid);
      }
    }
  }

  /** The source's check, `anyMatch` over the flat REQUIRED_CERT_POLICIES list, is IsAcceptedPolicy. */
  lemma AnyMatchIsAccepted(oid: string)
    ensures AnyMatch(RequiredCertPolicies(), oid) <==> IsAcceptedPolicy(oid)
  {
    AcceptedIffInCatalog(oid);
  }

  /** Entries 30 and 40 of the catalog are the same OID, id-fpki-common-hardware. */
  lemma CatalogRepeatsCommonHardware()
    ensures |RequiredCertPolicies()| > 40
    ensures RequiredCertPolicies()[30] == RequiredCertPolicies()[40] == IdFpkiCommonHardware
  {
    assert |Policies(Dod)| == 20 && |Policies(Eca)| == 9 && |Policies(Fpki)| == 11;
    assert RequiredCertPolicies()[30] == Policies(Fpki)[1] == IdFpkiCommonHardware;
    assert RequiredCertPolicies()[40] == Policies(EntrustSsp)[0] == IdFpkiCommonHardware;
  }

  /** Membership is the same in the list and in its repetition-free form, which is shorter. */
  lemma CatalogRepetitionIsHarmless(oid: string)
    ensures |Distinct(RequiredCertPolicies())| < |RequiredCertPolicies()|
    ensures IsAcceptedPolicy(oid) <==> oid in Distinct(RequiredCertPolicies())
  {
    CatalogRepeatsCommonHardware();
    DistinctDropsRepeats(RequiredCertPolicies(), 30, 40);
    AcceptedIffInCatalog(oid);
  }
}
