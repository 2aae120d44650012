/**
 * The offline fallback channel (services/offline.ts): hand the operating system an
 * `sms:` URL that opens a drafted text message, or a `tel:` URL that opens the
 * dialer. Both report only whether the hand-off itself raised an error.
 *
 * The platform name and the outcome of `Linking.openURL` are inputs; the URLs the
 * app hands over are recorded by a `Linking` object.
 */
module Offline {

  import opened Wrappers
  import opened JsStrings
  import opened UriEncoding

  /** The values of `Platform.OS`. */
  datatype Platform = Android | Ios | Web | Windows | MacOS

  /** The operating system's URL handler, with the URLs handed to it so far. */
  class Linking {
    var openedUrls: seq<JsString>

    constructor ()
      ensures openedUrls == []
    {
      openedUrls := [];
    }

    /** `Linking.openURL(url)`; `fails` is whether the platform rejects it. */
    method OpenURL(url: JsString, fails: bool) returns (threw: bool)
      modifies this
      ensures openedUrls == old(openedUrls) + [url]
      ensures threw == fails
    {
      openedUrls := openedUrls + [url];
      threw := fails;
    }
  }

  const EqualsSign: CodeUnit := 0x3D

  /** What follows the number: `?body=` on Android, `&body=` on iOS, nothing elsewhere. */
  function BodySeparator(os: Platform): Option<JsString>
  {
    match os
    case Android => Some(Lit("?body="))
    case Ios => Some(Lit("&body="))
    case _ => None
  }

  /**
   * The `sms:` URL `sendSMSDirectly` opens: the number as given, the platform's
   * separator and the percent-encoded message. `None` when no URL is opened: on a
   * platform other than Android and iOS, or when encoding the message throws.
   */
  function SmsUrl(os: Platform, phoneNumber: JsString, message: JsString): (url: Option<JsString>)
    ensures url.Some? <==> (os == Android || os == Ios) && IsWellFormedUtf16(message)
  {
    EncodeSucceedsIff(message);
    match BodySeparator(os)
    case None => None
    case Some(separator) =>
      match EncodeURIComponent(message)
      case None => None
      case Some(body) => Some(Lit("sms:") + phoneNumber + separator + body)
  }

  /** The `tel:` URL `makePhoneCall` opens: the number inserted as it is, not encoded. */
  function TelUrl(phoneNumber: JsString): (url: JsString)
    ensures |url| == 4 + |phoneNumber| && url[..4] == Lit("tel:") && url[4..] == phoneNumber
  {
    Lit("tel:") + phoneNumber
  }

  /** The part of `s` after its last occurrence of `u` (all of `s` when there is none). */
  function AfterLast(s: JsString, u: CodeUnit): JsString
  {
    if s == [] || s[|s| - 1] == u then [] else AfterLast(s[..|s| - 1], u) + [s[|s| - 1]]
  }

  lemma {:induction false} AfterLastOf(p: JsString, u: CodeUnit, t: JsString)
    requires forall i :: 0 <= i < |t| ==> t[i] != u
    ensures AfterLast(p + [u] + t, u) == t
  {
    if t != [] {
      var s := p + [u] + t;
      assert s[..|s| - 1] == p + [u] + t[..|t| - 1];
      AfterLastOf(p, u, t[..|t| - 1]);
    } else {
      assert (p + [u] + t)[|p|] == u;
    }
  }

  /**
   * The receiving messaging app gets back exactly the message: the URL is `sms:`, the
   * number and the separator, followed directly by a text without `=` that decodes to
   * the message, whatever the number and the message contain.
   */
  lemma {:induction false} SmsUrlCarriesMessage(os: Platform, phoneNumber: JsString, message: JsString)
    requires SmsUrl(os, phoneNumber, message).Some?
    ensures var url := SmsUrl(os, phoneNumber, message).value;
      var prefix := Lit("sms:") + phoneNumber + BodySeparator(os).value;
      && url == prefix + AfterLast(url, EqualsSign)
      && DecodeURIComponent(AfterLast(url, EqualsSign)) == Some(message)
  {
    var separator := BodySeparator(os).value;
    var body := EncodeURIComponent(message).value;
    var url := SmsUrl(os, phoneNumber, message).value;
    assert url == Lit("sms:") + phoneNumber + separator + body;
    EncodeHasNoDelimiters(message);
    assert separator == separator[..5] + [EqualsSign];
    assert url == (Lit("sms:") + phoneNumber + separator[..5]) + [EqualsSign] + body;
    AfterLastOf(Lit("sms:") + phoneNumber + separator[..5], EqualsSign, body);
    DecodeEncode(message);
  }

  /**
   * The iOS URL is the Android URL with the `?` before `body=` replaced by `&`;
   * every other code unit is the same.
   */
  lemma {:induction false} SmsUrlPlatformsDiffer(phoneNumber: JsString, message: JsString)
    requires IsWellFormedUtf16(message)
    ensures var a, i := SmsUrl(Android, phoneNumber, message).value, SmsUrl(Ios, phoneNumber, message).value;
      && |a| == |i|
      && a[4 + |phoneNumber|] == Unit('?') && i[4 + |phoneNumber|] == Unit('&')
      && forall k :: 0 <= k < |a| && k != 4 + |phoneNumber| ==> a[k] == i[k]
  {
  }

  /**
   * `sendSMSDirectly`: on Android and iOS, open the `sms:` URL and report `true`
   * unless opening it throws. Elsewhere report `false` without opening anything.
   * An exception (from encoding or from opening) is caught and reported as `false`.
   */
  method SendSMSDirectly(linking: Linking, os: Platform, phoneNumber: JsString, message: JsString, openFails: bool)
    returns (sent: bool)
    modifies linking
    ensures sent <==> SmsUrl(os, phoneNumber, message).Some? && !openFails
    ensures SmsUrl(os, phoneNumber, message).Some? ==>
      linking.openedUrls == old(linking.openedUrls) + [SmsUrl(os, phoneNumber, message).value]
    ensures SmsUrl(os, phoneNumber, message).None? ==> linking.openedUrls == old(linking.openedUrls)
  {
    if os == Android || os == Ios {
      var encoded := EncodeURIComponent(message);
      if encoded.None? {
        return false;
      }
      var separator := if os == Android then Lit("?body=") else Lit("&body=");
      var url := Lit("sms:") + phoneNumber + separator + encoded.value;
      var threw := linking.OpenURL(url, openFails);
      return !threw;
    }
    return false;
  }

  /** `makePhoneCall`: open the `tel:` URL and report `true` unless opening it throws. */
  method MakePhoneCall(linking: Linking, phoneNumber: JsString, openFails: bool) returns (placed: bool)
    modifies linking
    ensures placed == !openFails
    ensures linking.openedUrls == old(linking.openedUrls) + [TelUrl(phoneNumber)]
  {
    var threw := linking.OpenURL(Lit("tel:") + phoneNumber, openFails);
    placed := !threw;
  }
}
