/**
 * The host platform's functions that the plugin calls but does not define. They
 * are uninterpreted: every operation of the model takes a `Host` and says what it
 * does in terms of these functions.
 */
module Wp {

  datatype Host = Host(
    escAttr: string -> string,    // esc_attr
    escHtml: string -> string,    // esc_html
    escUrl: string -> string,     // esc_url
    translate: string -> string,  // esc_html__ with the plugin's text domain
    adminUrl: string -> string,   // admin_url
    svgIcon: string -> string     // Icons_Manager::render_uploaded_svg_icon
  )

  /** What escaping for an attribute guarantees: no `<` and no `"` survive. */
  ghost predicate AttrSafe(h: Host) {
    forall s :: '<' !in h.escAttr(s) && '"' !in h.escAttr(s)
  }
}
