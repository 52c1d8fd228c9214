/** The branded heading that replaces the first lines of the scanner's html report: a page
    title, an inline PNG logo and a level-one heading, opening a `<pre>` block for the
    remaining report lines. */
module Branding {
  /** The base64 text of the PNG logo embedded in the heading. Its content is an image and
      takes part in no property, so it is left as a fixed but unspecified string. */
  const LogoPngBase64: string

  const HtmlReplacementText: string :=
    "<html><head><title>PurpleTeam TLS Scanning Report</title></head><body><div><img style=\"padding: 0; width: 4rem; display: inline-block;\" src=\"data:image/png;base64,"
    + LogoPngBase64
    + "\"><h1 style=\"padding: 0 0 0 5px; width: 40rem; display: inline-block;\">PurpleTeam TLS Scanning Report</h1></div><pre>"
}
