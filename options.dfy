/**
  The site's option table, reached through `get_option` and `update_option`.
  Only string values are ever stored by the exporter.
*/
module Options {
  import opened Wrappers

  class OptionStore {
    /** Every option that is set, by name. */
    var options: map<string, string>

    constructor (initial: map<string, string>)
      ensures options == initial
    {
      options := initial;
    }

    /** `get_option($name)`: the stored value, or None (PHP's `false`) when unset. */
    function GetOption(name: string): Option<string>
      reads this
    {
      if name in options then Some(options[name]) else None
    }

    /** `update_option($name, $value)`: sets one option and leaves the others alone. */
    method UpdateOption(name: string, value: string)
      modifies this
      ensures options == old(options)[name := value]
    {
      options := options[name := value];
    }
  }
}
