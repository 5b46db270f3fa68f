/** The admin's event form (`pages/CreateEvent.jsx`): its initial values,
    the domain checkboxes, the thumbnail gate and the `FormData` the submit
    handler builds, key by key in the form's order. Files are opaque names. */
module CreateEventForm {
  import opened Common
  import opened Selection

  type File = string

  datatype EventForm = EventForm(
    club_name: string, event_name: string, title: string, description: string,
    event_date: string, time: string, venue: string, registration_link: string,
    domains: seq<string>, thumbnail: Option<File>)

  /** `club_name` starts as the signed-in user's full name, or empty. */
  function InitialForm(fullname: Option<string>): (f: EventForm)
    ensures Given(fullname) ==> f.club_name == fullname.value
    ensures !Given(fullname) ==> f.club_name == ""
    ensures f.domains == [] && f.thumbnail.None?
  {
    EventForm(if Given(fullname) then fullname.value else "", "", "", "", "", "", "", "", [], None)
  }

  /** `toggleDomain`. */
  function ToggleDomain(form: EventForm, domain: string): (r: EventForm)
    ensures r.(domains := form.domains) == form
    ensures forall d :: d in r.domains <==> (d != domain && d in form.domains) || (d == domain && domain !in form.domains)
  {
    ToggleMembers(form.domains, domain);
    form.(domains := Toggle(form.domains, domain))
  }

  /** Checking and unchecking a domain leaves the form as it was. */
  lemma ToggleDomainTwice(form: EventForm, domain: string)
    requires domain !in form.domains
    ensures ToggleDomain(ToggleDomain(form, domain), domain) == form
  {
    ToggleTwiceAbsent(form.domains, domain);
  }

  // ---------------------------------------------------------------------------
  // The FormData
  // ---------------------------------------------------------------------------

  datatype FormValue = Text(text: string) | Upload(file: File)

  datatype FormEntry = FormEntry(name: string, value: FormValue)

  /** The form's keys in declaration order, which `for...in` follows. */
  const KEYS: seq<string> := ["club_name", "event_name", "title", "description", "event_date",
                              "time", "venue", "registration_link", "domains", "thumbnail"]

  /** The value of a text key; the two list and file keys have none. */
  function TextOf(form: EventForm, key: string): string {
    if key == "club_name" then form.club_name
    else if key == "event_name" then form.event_name
    else if key == "title" then form.title
    else if key == "description" then form.description
    else if key == "event_date" then form.event_date
    else if key == "time" then form.time
    else if key == "venue" then form.venue
    else if key == "registration_link" then form.registration_link
    else ""
  }

  /** One `domains[]` entry per selected domain, in selection order. */
  function DomainEntries(domains: seq<string>): (r: seq<FormEntry>)
    ensures |r| == |domains|
  {
    seq(|domains|, i requires 0 <= i < |domains| => FormEntry("domains[]", Text(domains[i])))
  }

  /** The eight text keys come first in the form's order. */
  const TEXT_KEY_COUNT: nat := 8

  /** One entry per text key, in the form's order. */
  function TextEntries(form: EventForm): (r: seq<FormEntry>)
    ensures |r| == TEXT_KEY_COUNT
  {
    seq(TEXT_KEY_COUNT, i requires 0 <= i < TEXT_KEY_COUNT => FormEntry(KEYS[i], Text(TextOf(form, KEYS[i]))))
  }

  /** The request body: the text keys, then one `domains[]` entry per
      domain, then the file. */
  function Serialised(form: EventForm): (r: seq<FormEntry>)
    requires form.thumbnail.Some?
    ensures |r| == TEXT_KEY_COUNT + |form.domains| + 1
  {
    TextEntries(form) + DomainEntries(form.domains) + [FormEntry("thumbnail", Upload(form.thumbnail.value))]
  }

  /** What the loop has appended after the first `k` keys. */
  function SerialisedPrefix(form: EventForm, k: nat): seq<FormEntry>
    requires form.thumbnail.Some?
  {
    if k <= TEXT_KEY_COUNT then TextEntries(form)[..k]
    else if k == TEXT_KEY_COUNT + 1 then TextEntries(form) + DomainEntries(form.domains)
    else Serialised(form)
  }

  /** `handleSubmit`: without a thumbnail nothing is sent; otherwise each key
      of the form is appended in turn. */
  method HandleSubmit(form: EventForm) returns (request: Option<seq<FormEntry>>)
    ensures form.thumbnail.None? <==> request.None?
    ensures request.Some? ==> request.value == Serialised(form)
  {
    if form.thumbnail.None? {
      return None;
    }
    var eventData: seq<FormEntry> := [];
    var k := 0;
    while k < |KEYS|
      invariant 0 <= k <= |KEYS|
      invariant eventData == SerialisedPrefix(form, k)
    {
      var key := KEYS[k];
      if key == "domains" {
        ghost var before := eventData;
        var j := 0;
        while j < |form.domains|
          invariant 0 <= j <= |form.domains|
          invariant eventData == before + DomainEntries(form.domains[..j])
        {
          assert DomainEntries(form.domains[..j + 1]) == DomainEntries(form.domains[..j]) + [FormEntry("domains[]", Text(form.domains[j]))];
          eventData := eventData + [FormEntry("domains[]", Text(form.domains[j]))];
          j := j + 1;
        }
        assert form.domains[..j] == form.domains;
      } else if key == "thumbnail" {
        eventData := eventData + [FormEntry("thumbnail", Upload(form.thumbnail.value))];
      } else {
        assert TextEntries(form)[..k + 1] == TextEntries(form)[..k] + [FormEntry(key, Text(TextOf(form, key)))];
        eventData := eventData + [FormEntry(key, Text(TextOf(form, key)))];
      }
      k := k + 1;
    }
    request := Some(eventData);
  }

  /** The name at each position of the body. */
  lemma SerialisedNames(form: EventForm, i: nat)
    requires form.thumbnail.Some? && i < |Serialised(form)|
    ensures Serialised(form)[i].name ==
      if i < TEXT_KEY_COUNT then KEYS[i]
      else if i < TEXT_KEY_COUNT + |form.domains| then "domains[]"
      else "thumbnail"
  {
  }

  /** The `domains[]` entries are exactly the selected domains, in order, and
      nothing else is sent under that name. */
  lemma SerialisedDomains(form: EventForm)
    requires form.thumbnail.Some?
    ensures var r := Serialised(form);
      && r[TEXT_KEY_COUNT..TEXT_KEY_COUNT + |form.domains|] == DomainEntries(form.domains)
      && forall i :: 0 <= i < |r| ==>
           (r[i].name == "domains[]" <==> TEXT_KEY_COUNT <= i < TEXT_KEY_COUNT + |form.domains|)
  {
    var r := Serialised(form);
    forall i | 0 <= i < |r|
      ensures r[i].name == "domains[]" <==> TEXT_KEY_COUNT <= i < TEXT_KEY_COUNT + |form.domains|
    {
      SerialisedNames(form, i);
    }
  }

  /** Where a key other than `domains` is sent: text keys at their place in
      the form's order, the file last. */
  function PositionOf(form: EventForm, key: string): nat
    requires key in KEYS && key != "domains"
  {
    if key == "thumbnail" then TEXT_KEY_COUNT + |form.domains|
    else if key == "club_name" then 0 else if key == "event_name" then 1
    else if key == "title" then 2 else if key == "description" then 3
    else if key == "event_date" then 4 else if key == "time" then 5
    else if key == "venue" then 6 else 7
  }

  /** Every other key of the form is sent exactly once, under its own name,
      with its value; `thumbnail` carries the file. */
  lemma SerialisedOnce(form: EventForm, key: string)
    requires form.thumbnail.Some? && key in KEYS && key != "domains"
    ensures var r, p := Serialised(form), PositionOf(form, key);
      && p < |r|
      && r[p] == FormEntry(key, if key == "thumbnail" then Upload(form.thumbnail.value) else Text(TextOf(form, key)))
      && forall i :: 0 <= i < |r| ==> (r[i].name == key <==> i == p)
  {
    var r := Serialised(form);
    forall i | 0 <= i < |r| ensures r[i].name == key <==> i == PositionOf(form, key) {
      SerialisedNames(form, i);
    }
  }
}
