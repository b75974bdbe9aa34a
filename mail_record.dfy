/**
 * A mail item as the Microsoft Graph `/me/messages` endpoint returns it when
 * `$select=subject,bodyPreview,receivedDateTime,from` is requested: a JSON
 * object in which any of the keys may be absent.
 */
module MailRecord {
  import opened Wrappers

  /** The object under `from.emailAddress`; only `address` is read. */
  datatype EmailAddress = EmailAddress(address: Option<string>)

  /** The object under `from`; only `emailAddress` is read. */
  datatype Sender = Sender(emailAddress: Option<EmailAddress>)

  datatype Mail = Mail(
    subject: Option<string>,
    from: Option<Sender>,
    receivedDateTime: Option<string>,
    bodyPreview: Option<string>)
}
