/** The two pieces of browser state the application writes: `localStorage`
    (a string-to-string store) and the root element's inline style together
    with the body's class list. Each is a class whose methods change exactly
    what the corresponding Web API call changes. */
module Browser {
  import opened Wrappers

  /** `window.localStorage`. */
  class LocalStorage {
    var items: map<string, string>

    constructor (initial: map<string, string>)
      ensures items == initial
    {
      items := initial;
    }

    /** `getItem(key)`: `null` (here `None`) when the key was never set. */
    method GetItem(key: string) returns (value: Option<string>)
      ensures value == if key in items then Some(items[key]) else None
    {
      value := if key in items then Some(items[key]) else None;
    }

    /** `setItem(key, value)`: overwrites, leaves every other key alone. */
    method SetItem(key: string, value: string)
      modifies this
      ensures items == old(items)[key := value]
    {
      items := items[key := value];
    }
  }

  /** `document.documentElement.style` custom properties and
      `document.body.classList`. */
  class Document {
    var style: map<string, string>
    var bodyClasses: set<string>

    constructor (style0: map<string, string>, classes0: set<string>)
      ensures style == style0 && bodyClasses == classes0
    {
      style := style0;
      bodyClasses := classes0;
    }

    /** `style.setProperty(name, value)`. */
    method SetProperty(name: string, value: string)
      modifies this
      ensures style == old(style)[name := value]
      ensures bodyClasses == old(bodyClasses)
    {
      style := style[name := value];
    }

    /** `style.removeProperty(name)`: removing an absent property is harmless. */
    method RemoveProperty(name: string)
      modifies this
      ensures style == old(style) - {name}
      ensures bodyClasses == old(bodyClasses)
    {
      style := style - {name};
    }

    /** `classList.remove(...names)`. */
    method RemoveClasses(names: set<string>)
      modifies this
      ensures bodyClasses == old(bodyClasses) - names
      ensures style == old(style)
    {
      bodyClasses := bodyClasses - names;
    }

    /** `classList.add(name)`: a class already present stays present once. */
    method AddClass(name: string)
      modifies this
      ensures bodyClasses == old(bodyClasses) + {name}
      ensures style == old(style)
    {
      bodyClasses := bodyClasses + {name};
    }
  }
}
