/** `Profile`: the editable part of a user's directory record, and its
    conversions to and from the Graph `User`. */
module Profiles {
  import opened Wrappers
  import opened GraphUsers

  datatype Profile = Profile(
    aboutMe: Option<string>,
    businessPhone: Option<string>,
    mobilePhone: Option<string>,
    office: Option<string>,
    street: Option<string>,
    postalCode: Option<string>,
    city: Option<string>,
    state: Option<string>,
    country: Option<string>,
    base64Photo: Option<string>)

  /** The user sent to update the contact details: the business phone becomes
      a one-element phone list; about-me and photo are not carried. */
  function ToUser(p: Profile): (u: User)
    ensures u.businessPhones == Some([p.businessPhone])
    ensures u.aboutMe.None? && u.manager.None? && u.id.None?
  {
    EmptyUser.(businessPhones := Some([p.businessPhone]),
               mobilePhone := p.mobilePhone,
               officeLocation := p.office,
               streetAddress := p.street,
               postalCode := p.postalCode,
               city := p.city,
               state := p.state,
               country := p.country)
  }

  /** The user sent to update about-me: nothing else is set. */
  function ToAboutMe(p: Profile): (u: User)
    ensures u == EmptyUser.(aboutMe := p.aboutMe)
  {
    User(None, None, None, None, None, None, None, None, None, None, None,
         p.aboutMe, None, None, None, None, None, None, [])
  }

  /** The profile read from a directory user; the photo is never set here. */
  function FromUser(u: User): (p: Profile)
    ensures p.base64Photo.None?
    ensures p.businessPhone == FirstBusinessPhone(u)
  {
    Profile(u.aboutMe, FirstBusinessPhone(u), u.mobilePhone, u.officeLocation, u.streetAddress,
            u.postalCode, u.city, u.state, u.country, None)
  }

  /** Writing the contact details and reading them back recovers them; about-me
      and the photo come back unset because `ToUser` does not carry them. */
  lemma ContactDetailsRoundTrip(p: Profile)
    ensures FromUser(ToUser(p)) == p.(aboutMe := None, base64Photo := None)
  {
  }

  /** `ToUser` and `ToAboutMe` write disjoint parts of the user: the contact
      details and the about-me text respectively. */
  lemma UpdatesAreDisjoint(p: Profile)
    ensures ToUser(p).aboutMe.None?
    ensures var a := ToAboutMe(p);
      a.businessPhones.None? && a.mobilePhone.None? && a.officeLocation.None? && a.city.None?
    ensures FromUser(ToAboutMe(p)) == Profile(p.aboutMe, None, None, None, None, None, None, None, None, None)
  {
  }
}
