/** The mock sign-in of context/AuthContext.tsx: the signed-in profile
    lives in memory, the saved profile under the `hs.profile` storage key;
    passwords are not checked. */
module Auth {
  import opened Wrappers

  const PROFILE_KEY: string := "hs.profile"

  datatype Profile = Profile(
    email: string, nomeCompleto: string, dataNascimento: string,
    congregacao: string, cidade: string, estado: string)

  /** The profile `signIn` signs in with, given what storage holds: the
      stored profile when its e-mail matches, the stored profile with the
      e-mail replaced when it does not, and a profile with only the e-mail
      filled in when nothing is stored. */
  function SignInProfile(stored: Option<Profile>, email: string): (p: Profile)
    ensures p.email == email
    ensures stored.Some? && stored.value.email == email ==> p == stored.value
    ensures stored.Some? ==> p == stored.value.(email := email)
    ensures stored.None? ==>
      p.nomeCompleto == "" && p.dataNascimento == "" && p.congregacao == "" && p.cidade == "" && p.estado == ""
  {
    if stored.Some? then
      if stored.value.email == email then stored.value else stored.value.(email := email)
    else Profile(email, "", "", "", "", "")
  }

  /** Signing in twice with the same e-mail signs in with the same profile
      as once, whatever is stored. */
  lemma SignInProfileStable(stored: Option<Profile>, email: string)
    ensures SignInProfile(Some(SignInProfile(stored, email)), email) == SignInProfile(stored, email)
  {
  }

  /** Signing in with the e-mail of the saved profile gives that profile
      back; with another e-mail it gives the same details under the new
      e-mail. */
  lemma SignInAfterSave(p: Profile, email: string)
    ensures email == p.email ==> SignInProfile(Some(p), email) == p
    ensures SignInProfile(Some(p), email).(email := p.email) == p
  {
  }

  class AuthProvider {
    var user: Option<Profile>
    var storage: map<string, Profile>

    function Stored(): (r: Option<Profile>)
      reads this
      ensures r.Some? <==> PROFILE_KEY in storage
      ensures r.Some? ==> r.value == storage[PROFILE_KEY]
    {
      if PROFILE_KEY in storage then Some(storage[PROFILE_KEY]) else None
    }

    /** The start-up load: the stored profile, unless nothing is stored or
        the read fails, when no one is signed in. */
    constructor (stored: map<string, Profile>, loadFails: bool)
      ensures storage == stored
      ensures user == if !loadFails && PROFILE_KEY in stored then Some(stored[PROFILE_KEY]) else None
      ensures loadFails ==> user.None?
    {
      storage := stored;
      user := if !loadFails && PROFILE_KEY in stored then Some(stored[PROFILE_KEY]) else None;
    }

    /** `signIn`: reads storage, never writes it, and ignores the password. */
    method SignIn(email: string, password: string)
      modifies this
      ensures storage == old(storage)
      ensures user == Some(SignInProfile(old(Stored()), email))
      ensures user.value.email == email
    {
      user := Some(SignInProfile(Stored(), email));
    }

    /** `signOut`: no one is signed in; storage is untouched. */
    method SignOut()
      modifies this
      ensures user.None? && storage == old(storage)
    {
      user := None;
    }

    /** `saveProfile`: stores `p` under `hs.profile` and signs in with it. */
    method SaveProfile(p: Profile)
      modifies this
      ensures storage == old(storage)[PROFILE_KEY := p]
      ensures user == Some(p) && Stored() == Some(p)
    {
      storage := storage[PROFILE_KEY := p];
      user := Some(p);
    }
  }

  /** Saving a profile, signing out and signing in again with its e-mail
      restores it, and the password plays no part. */
  method SaveSignOutSignIn(stored: map<string, Profile>, p: Profile, password: string)
    returns (user: Option<Profile>)
    ensures user == Some(p)
  {
    var auth := new AuthProvider(stored, false);
    auth.SaveProfile(p);
    auth.SignOut();
    auth.SignIn(p.email, password);
    user := auth.user;
  }
}
